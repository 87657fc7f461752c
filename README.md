# Pamplemousse text adventure: word wrap, navigation and slideshow

This project models the logic of the SDL text adventure `pamplemousse` in
Dafny and proves properties of it. The program tells two
choose-your-own-adventure chapters, "Poulpe" and "Taupe". The drawing,
audio and window plumbing around that logic is not modelled. Two source
files are covered:

- `src/main.cpp` is the playable game. `renderText` wraps a text greedily
  into lines of at most `lineWidth` pixels. `handleInput` follows the first
  or second choice of the current scene on keys 1 and 2. Each tick,
  `render` either draws the current scene with its numbered choices in a
  text box or, past the end of the chapter, goes back to the
  chapter-selection menu. `displayChapterSelectionMenu` selects chapter 0
  or 1 on keys 1 and 2.
- `src/main_broken.cpp` is a slideshow variant. Its `gameLoop` ignores the
  choices. It shows scene after scene by position and returns to the menu
  once it is past the last scene.

Modules:

- `TextLayout`: the word wrap. `std::getline` and `operator>>` are
  char-by-char functions (`GetLine`, `Words`). The greedy fill is a set of
  functions (`Fill`, `WrapParagraph`, `WrapParagraphs`, `Layout`). The C++
  nested loops are the method `RenderText`, proved equal to `Layout`.
  `TTF_SizeText` is an uninterpreted parameter `measure: string -> Size`.
- `Story`: the `Choice`, `Scene` and `Chapter` structs, the input events
  (quit, key 1, key 2, any other key, any other event), `std::to_string`,
  and `Frame`, one `SDL_RenderPresent`. A frame holds the clear colour, the
  image path and the lines drawn by each `renderText` call.
- `Menu`: the chapter-selection rule. Both files share it word for word.
  It is stated over `Nav`, the navigation fields of `Game`.
- `Navigation`: the `Game` class of `src/main.cpp`. Its fields are updated
  in place. `pending` holds the input still to be polled, as one batch per
  `while (SDL_PollEvent(...))` drain. `presented` is the log of presented
  frames. `musicLog` lists the chapters whose theme was (re)started.
- `Content`: the two chapters of `loadChapters`, reduced to scene ids and
  choice targets, with the well-formedness facts about them.
- `Slideshow`: the `Game` class of `src/main_broken.cpp`, with its
  `gameLoop`.
- `Wrappers`: `Option`.

`currentSceneID` and `nextSceneID` are positions in the `scenes` vector.
They are never looked up by `Scene.id`, and the model uses them the same
way. Out-of-range indexing is undefined behaviour in C++. The model states
it as a precondition (`InputSafe`, `RenderSafe`, `SlideSafe`). Lemmas show
when the chapters meet those preconditions.

Four behaviours of the code are easy to misread. The model follows the
code each time:

- An empty or blank paragraph does not produce an empty line. The code
  draws nothing for it and leaves the offset unchanged
  (`src/main.cpp:285`). See `TextLayout.BlankParagraph`.
- An overflow emits the accumulator even when it is empty, which
  happens when the first word of a paragraph overflows on its own (`src/main.cpp:276-279`).
  See `TextLayout.EmptyLineOnlyOnFirstOverflow`.
- A chapter does not end on a terminal scene. The code goes back to the
  menu by position: the last scene is never drawn, whatever its
  choices (`src/main.cpp:343`). See `Navigation.RenderBranches`.
- The sentinel scene `{74, "", {{}}, {}, ""}` is not terminal. `{{}}`
  makes one default choice whose target is 0 (`src/main.cpp:208`). See
  `Content.ChapterEnds`.

## Model

| member | source | states |
|---|---|---|
| TextLayout.GetLineShape | src/main.cpp:267 | `std::getline` returns a line without '\n'. The stream is that line, then '\n', then the rest, or the whole stream is that line. |
| TextLayout.NextWordTakesFirst | src/main.cpp:272 | `>>` fails exactly when the stream has no words. Otherwise it returns a word (non-empty, no whitespace), and the words of the stream are that word followed by the words of the rest. |
| TextLayout.WordsSplit | src/main.cpp:272 | A whitespace character separates words: the words of `a + c + b` are the words of `a` followed by those of `b`. |
| TextLayout.WordsBlank | src/main.cpp:272 | A string has no words exactly when it is all whitespace. |
| TextLayout.WordsOfCandidate | src/main.cpp:273 | The words of `currentLine + " " + word` are those of `currentLine` followed by `word`, with or without the separating space. |
| TextLayout.ParagraphWordsOfText | src/main.cpp:263-272 | The words of all `getline` paragraphs, in order, are the words of the whole text. |
| TextLayout.RenderText | src/main.cpp:262-292 | The nested loops emit exactly `Layout`. Every line is acceptable, and the words of the lines in order are the words of the text. |
| TextLayout.RenderParagraph | src/main.cpp:268-290 | One turn of the `getline` loop emits the lines of `WrapParagraph` and leaves the offset at its bottom. |
| TextLayout.WrapParagraphsStep | src/main.cpp:267-291 | Wrapping a text is wrapping its first `getline` paragraph, then the rest of the stream from the offset that paragraph left. |
| TextLayout.ContinuesStep | src/main.cpp:272-283 | One word of the inner loop. On overflow the accumulator is emitted at the current offset, the offset advances by the candidate's height plus 10, and the accumulator restarts with the word. Otherwise the candidate becomes the accumulator. |
| TextLayout.FillAcceptable | src/main.cpp:272-283 | The greedy fill keeps the accumulator and every emitted line acceptable. |
| TextLayout.LayoutAcceptable | src/main.cpp:272-290 | Every emitted line is empty, a single word, or a line whose measured width was at most `lineWidth` (`textWidth > lineWidth` overflows, so exactly `lineWidth` fits). |
| TextLayout.FillWords | src/main.cpp:272-283 | The words of the emitted lines, then of the accumulator, equal the words of the starting accumulator followed by the words fed in: nothing dropped, duplicated or reordered. |
| TextLayout.WrapParagraphWords | src/main.cpp:268-290 | A paragraph's lines carry exactly the paragraph's words, in order. |
| TextLayout.LayoutPreservesWords | src/main.cpp:262-292 | The words of all emitted lines, in order, are the whitespace-separated words of the text. |
| TextLayout.FillNonEmpty | src/main.cpp:276-281 | Once the accumulator holds a word it is never empty again, and every line emitted from then on is non-empty. |
| TextLayout.BlankParagraph | src/main.cpp:272-290 | A paragraph emits no line exactly when it is empty or blank. A blank paragraph leaves `yOffset` unchanged. |
| TextLayout.EmptyLineOnlyOnFirstOverflow | src/main.cpp:276-279 | A paragraph's line k is empty exactly when k = 0 and the paragraph's first word alone is wider than `lineWidth`. |
| TextLayout.FillChain | src/main.cpp:265-289 | Emitted lines sit at x. The first is at the starting offset, and each next line and the final offset lie a measured height plus 10 below the line before. |
| TextLayout.LayoutChain | src/main.cpp:262-292 | The same chain holds for a whole text, from `y` down to the offset the loops end with. |
| TextLayout.LayoutOffsetsRise | src/main.cpp:265-289 | With non-negative heights, the first line is at `y`, every line is at x and at or below `y`, and each line is at least 10 below the previous one. |
| TextLayout.LayoutEvenlySpaced | src/main.cpp:278-289 | With a constant height h, line k is at `y + k (h + 10)`. |
| TextLayout.LayoutStartsAt | src/main.cpp:265-288 | A text that starts with a non-space character emits at least one line, and the first is at (x, y). |
| Story.NatToString | src/main.cpp:350 | `std::to_string` of a non-negative value is a non-empty string of decimal digits with no leading zero. |
| Story.ParseNatToString | src/main.cpp:350 | Reading back the digits `std::to_string` writes gives the number. |
| Story.NumberedStart | src/main.cpp:350 | `(i+1) + ". " + text` starts with a digit, so it is never blank. It has a '\n' only if the text has one, and it ends in '\n' only if the text does. |
| Menu.Selected | src/main.cpp:401-406 | A key selects a chapter exactly when it is key 1 and there is a chapter, or key 2 and there are two. The chapter selected is 0 or 1 and exists.  Key 1 selects chapter 0 and key 2 selects chapter 1. |
| Menu.MenuKeyPress | src/main.cpp:400-413 | A key press on the menu. Key 1 with at least one chapter sets chapter 0, its scenes and one restart of its music, and ends the menu. Key 2 with at least two chapters does the same for chapter 1. Any other key, or too few chapters, changes nothing. |
| Menu.MenuEventEffect | src/main.cpp:397-413 | One event. A quit clears `isRunning` and ends the menu. A selection sets the chapter and its scenes, restarts its music once and ends the menu. The scene position never changes, and nothing else changes. |
| Menu.MenuBatchEffect | src/main.cpp:396-415 | A whole batch. The music is restarted once per selection, in order. Chapter and scenes belong to the last selection, or are unchanged without one. The position is kept, `isRunning` is cleared by any quit, and the menu ends exactly when the batch holds a quit or a selection. |
| Menu.MenuLoopEffect | src/main.cpp:392-417 | The `while (selecting)` loop consumes batches until one holds a quit or a selection, or the input runs out. Its effect is that of all consumed batches together. |
| Menu.MenuLoopConsumed | src/main.cpp:392-417 | A selecting menu consumes at least one batch when there is any. No batch before the last one consumed holds a quit or a valid selection. When input is left over, the last one consumed does. |
| Navigation.ToSizeT | src/main.cpp:343 | Converting an `int` to `size_t` reduces it modulo 2^64. Values from 0 up are kept, negative ones wrap. |
| Navigation.DrawsScene | src/main.cpp:343 | `currentSceneID < scenes.size() - 1` in unsigned arithmetic. For an `int` position and a chapter of 1 to 2^31 scenes it holds exactly when 0 <= id < n - 1. For an empty chapter, `size() - 1` wraps and it holds for every non-negative position. |
| Navigation.InputKeepsChapter | src/main.cpp:230-245 | Input never changes the chapter, the scenes or the music. `isRunning` stays true exactly when the batch has no quit. |
| Navigation.InputFollowsChoices | src/main.cpp:236-242 | After a batch the position is the old one or the target of a first or second choice of some scene of the chapter. |
| Navigation.KeyPress | src/main.cpp:236-242 | Key 1 with at least one choice moves to `choices[0].nextSceneID`. Key 2 with at least two moves to `choices[1].nextSceneID`. Any other key, or too few choices, changes nothing. One black frame is shown per move and none otherwise. |
| Navigation.ClosedInputSafe | src/main.cpp:236-242 | In a chapter whose targets are all positions of the chapter, no input reads outside `scenes`, and the position stays inside. |
| Navigation.TerminalScene | src/main.cpp:236-242 | In a scene without choices no key moves the position and no black frame is shown. |
| Navigation.TextBoxJoined | src/main.cpp:348-351 | The text box built by `textBox +=` is the dialogue followed by each numbered label on a line of its own. |
| Navigation.JoinedParagraphs | src/main.cpp:348-351 | Splitting the joined text with `getline` gives back the dialogue and the labels. |
| Navigation.TextBoxParagraphs | src/main.cpp:348-351 | With single-line dialogue and labels, the paragraphs of the text box are the dialogue, then the numbered labels. |
| Navigation.ComposeTextBox | src/main.cpp:348-351 | The `for` loop builds exactly the text box. |
| Navigation.SceneLinesShape | src/main.cpp:348-352 | A scene's lines are its dialogue and then each label, wrapped at width 700 - 20 = 680 from (60, 410). Their words are the dialogue's and then the labels', and every line fits the box. |
| Navigation.WelcomeLayout | src/main.cpp:362-389 | The welcome screen is black, without an image. It has five fixed blocks around one block per chapter. Entry i reads `(i+1) + ". " + title`, and its first line is at (100, 200 + 40 i). The instructions are 20 below the last entry's slot. |
| Navigation.RenderBranches | src/main.cpp:337-360 | If 0 <= position < n - 1, `render` presents that scene's frame and changes nothing. Otherwise it sets the chapter to -1 and the position to 0, and runs the menu. The menu consumes batches up to the first that holds a quit or a selection, or all of them. It shows one welcome screen per consumed batch and applies their selections. `isRunning` stays true exactly when none of them holds a quit. So the last scene is never drawn. |
| Navigation.MenuAfterEndIsStartChapter | src/main.cpp:356-358 | Going past the end and then selecting chapter c leaves the navigation state `startChapter(c)` (lines 420-425) would, except `isRunning`, which is cleared exactly when a consumed batch holds a quit. With no quit the two states are equal. |
| Navigation.SelectionKeepsPosition | src/main.cpp:408-425 | A selection in the menu does not reset `currentSceneID`. `startChapter` sets it to 0 and restarts the music once. |
| Navigation.InputKeepsSound | src/main.cpp:230-245 | In a non-empty, closed chapter with the position inside it, input reads inside `scenes` and keeps all three facts. |
| Navigation.RenderKeepsSound | src/main.cpp:337-360 | With playable chapters, a tick reads inside `scenes` and keeps the state sound, including after a menu selection. |
| Navigation.Game.constructor | src/main.cpp:45 | `Game()` and `loadChapters` (line 212) leave the game running at scene 0 of chapter 0, with nothing presented. |
| Navigation.Game.PollBatch | src/main.cpp:232 | A drain takes the next batch of pending input, or none when input has run out. |
| Navigation.Game.PlayChapterMusic | src/main.cpp:215-228 | Restarts the current chapter's theme: one more entry in the music log, nothing else changes. |
| Navigation.Game.HandleInput | src/main.cpp:230-245 | The fields become the input function of the old state and the next batch. One black frame is presented per move. |
| Navigation.Game.HandleEvent | src/main.cpp:233-243 | One event, with a black frame exactly when it follows a choice. |
| Navigation.Game.RenderTextInBox | src/main.cpp:254-260 | Wraps the text at (x + 10, y + 10) with width `width - 20`. The lines are acceptable at that width and keep the text's words. |
| Navigation.Game.RenderWelcomeScreen | src/main.cpp:362-389 | Presents the welcome frame and changes no field. |
| Navigation.Game.RenderEntries | src/main.cpp:377-379 | The loop draws the entry of each chapter at its own y. |
| Navigation.Game.MenuHandleBatch | src/main.cpp:396-415 | The drain loop of the menu leaves the fields as the menu rule says for that batch. |
| Navigation.Game.DisplayChapterSelectionMenu | src/main.cpp:392-418 | The fields, the input left and the frames presented are those of the menu loop: one welcome screen per consumed batch. |
| Navigation.Game.Render | src/main.cpp:337-360 | One tick, as `RenderSpec` says: the welcome screen for chapter -1, a scene, or back to the menu. |
| Navigation.Game.RenderScene | src/main.cpp:344-353 | Presents the scene's colour, image and text box and changes no field. |
| Navigation.Game.ReturnToMenu | src/main.cpp:356-358 | Sets the chapter to -1 and the position to 0, then runs the menu. |
| Navigation.Game.Run | src/main.cpp:437-443 | With playable chapters, input and ticks alternate while the game runs and input is left. They never read outside `scenes` and keep the state sound. |
| Navigation.Game.StartChapter | src/main.cpp:420-425 | Sets the chapter, copies its scenes, resets the position to 0 and restarts the music once. |
| Content.ClosedIffTargetsInRange | src/main.cpp:236-242 | A chapter is safe for input exactly when every target of its graph is a position of the chapter. |
| Content.AbstractSkeleton | src/main.cpp:11-23 | The scenes built from an ids-and-targets graph have exactly that graph. |
| Content.BatchSameGraph | src/main.cpp:236-242 | Two states that differ only in scenes with the same graph handle every batch alike. Input is safe on one exactly when on the other, it reaches the same position with the same fields, and it shows as many black frames. |
| Content.SkeletonNavigates | src/main.cpp:236-242 | Replacing a state's scenes by the skeleton of their graph, without prose, colours or images, changes nothing navigation reads. Input safety, the state input leads to, the black-frame count, `RenderSafe`, the drawing test of `render` and `Closed` all agree. |
| Content.PlayableByGraph | src/main.cpp:236-242 | Whether chapters are playable depends only on their graphs. |
| Content.ShippedGraphsNotPlayable | src/main.cpp:94-208 | Any two chapters with the graphs of "Poulpe" and "Taupe", whatever their prose, colours and images, are not playable. |
| Content.PoulpeWellFormed | src/main.cpp:94-127 | In "Poulpe" every id is its own position and every target is a position. |
| Content.TaupeIdsArePositions | src/main.cpp:134-208 | In "Taupe" every id is its own position. |
| Content.TaupeDanglingTarget | src/main.cpp:204 | Scene 70 of "Taupe" leads to 71 and 75, but the chapter has only 75 scenes, so the chapter is not well formed. |
| Content.Scene72Orphan | src/main.cpp:206 | No choice of "Taupe" leads to scene 72. |
| Content.ChapterEnds | src/main.cpp:208 | The "Taupe" sentinel has one default choice with target 0. The last "Poulpe" scene (line 127) has no choice. |
| Content.CyrielLeavesTheChapter | src/main.cpp:204 | Choosing "Cyriel" moves to position 75. A further key in the same batch reads outside `scenes`, and position 75 is never drawn, so the shipped chapters are not playable. |
| Content.CorrectedTaupeWellFormed | src/main.cpp:204-206 | With "Cyriel" leading to 72, "Taupe" is well formed and scene 72 is reached. |
| Content.CorrectedChaptersPlayable | src/main.cpp:204-206 | The corrected chapters are playable, the game starts sound, and choosing "Cyriel" draws scene 72. |
| Content.SentinelRestarts | src/main.cpp:207-208 | From the "Taupe" ending, key 1 twice reaches the sentinel and then its default choice leads back to position 0. |
| Slideshow.SlideLayout | src/main_broken.cpp:280-308 | A slide has the scene's colour and image. The dialogue is wrapped on its own at (50, 50) with width `SCREEN_WIDTH - 100`. Then there is one block per choice, whose first line is at (70, 200 + 50 i). |
| Slideshow.MenuFrameLayout | src/main_broken.cpp:368-376 | The menu screen is black, without an image. The heading is at (100, 100), then one entry per chapter whose first line is at (100, 150 + 50 i). |
| Slideshow.ShowsScene | src/main_broken.cpp:411 | `currentSceneID < scenes.size()` in unsigned arithmetic. For an `int` position and fewer than 2^31 scenes it holds exactly when 0 <= id < n. |
| Slideshow.TickKeepsSafe | src/main_broken.cpp:399-427 | A turn keeps the position an `int` and the scene count below 2^31. |
| Slideshow.TickShows | src/main_broken.cpp:402-419 | A turn inside the chapter shows that scene's slide and moves exactly one position on, whatever keys were pressed. A quit only clears `isRunning`. |
| Slideshow.TickPastEnd | src/main_broken.cpp:421-425 | A turn past the end sets the position to 0 and runs the menu. Only menu screens are shown. The menu consumes batches up to the first that holds a quit or a selection. The chapter, scenes and music change only by the selections of those batches, and `isRunning` stays true exactly when none of them, nor the turn's own batch, holds a quit. |
| Slideshow.OnlyQuitMatters | src/main_broken.cpp:402-406 | Two batches that agree on holding a quit give the same turn: key presses never matter. |
| Slideshow.RunStep | src/main_broken.cpp:399-427 | The loop is its first turn followed by the loop from the state that turn leaves. |
| Slideshow.SlidesInOrder | src/main_broken.cpp:399-427 | With no quit, a chapter of n scenes is shown from position i at positions i, ..., n - 1, each once and in order. The loop then goes on past the end with the input left. |
| Slideshow.Game.constructor | src/main_broken.cpp:45 | With `loadChapters` (line 136), the game starts running at scene 0 of chapter 0, with nothing presented. |
| Slideshow.Game.MenuHandleBatch | src/main_broken.cpp:347-366 | The drain loop of the menu leaves the fields as the shared menu rule says for that batch. |
| Slideshow.Game.RenderMenu | src/main_broken.cpp:368-376 | Presents the menu screen and changes no field. |
| Slideshow.Game.DisplayChapterSelectionMenu | src/main_broken.cpp:343-378 | The fields, the input left and the frames presented are those of the menu loop: one menu screen per consumed batch. |
| Slideshow.Game.RenderScene | src/main_broken.cpp:280-308 | Presents the slide of the scene and changes no field. |
| Slideshow.Game.RenderChoices | src/main_broken.cpp:299-304 | The `for` loop with its running `yOffset` draws exactly the choice blocks. |
| Slideshow.Game.DrainEvents | src/main_broken.cpp:401-406 | The drain consumes the next batch. A quit in it clears `isRunning`, and nothing else changes. |
| Slideshow.Game.Step | src/main_broken.cpp:401-425 | One turn of `gameLoop`, as `TickSpec` says. |
| Slideshow.Game.GameLoop | src/main_broken.cpp:399-427 | The fields, the input left and the frames presented are those of the whole loop, `RunSpec`. On return the game is stopped or input has run out. |

## Left out

- SDL, TTF, IMG and Mixer initialisation and teardown (`init`, `clean`,
  `main`): these are foreign library calls. `init` ends with a call to
  `displayChapterSelectionMenu`, which is modelled on its own; the model
  starts each `Game` at the state `Game()` and `loadChapters` leave.
- The sequence `init`, then `run` or `gameLoop` is not modelled as one
  run.
- `renderTextLine`, the creation of textures and surfaces, and
  `renderImage`: these are foreign calls and `float` arithmetic. A drawn
  line is recorded as its text and its (x, y). An empty line, which
  SDL_ttf may refuse to render, is still recorded.
- The image is recorded as its path. A failed load and the aspect-ratio
  fit are not modelled.
- `loadTexture` and `SCREEN_WIDTH` in `src/main_broken.cpp` are not
  defined in that file. The screen width is the constant `screenWidth` of
  `Slideshow.Game`. A scene with a non-empty path records that path.
- The translucent `SDL_RenderFillRect` of `renderTextInBox` and every
  `SDL_SetRenderDrawColor` except the clear colour of a frame: they carry
  no logic.
- `renderTransitionEffect` (`src/main_broken.cpp:261-278`): a `float`
  alpha and timed delays. A slide counts as one presented frame. The
  source presents 104 times per shown scene: each of the 51 fade steps
  presents twice, once in `renderScene` (`src/main_broken.cpp:307`) and
  once at line 275. Then `renderScene` presents once more, and a last
  present follows at line 415. The frame log records one frame.
- `SDL_Delay`, the 500 ms black screen delay and the 100 ms loop delay:
  wall-clock timing. The black frame of `renderBlackScreenWithDelay` is
  modelled.
- Audio internals: `Mix_LoadMUS`, its failure and playback. The music log
  only records which chapter's theme was (re)started.
- Event polling is one batch of events per drain, taken from a finite
  input.
  - The blocking loops (`run`, `gameLoop`, the menu) stop when the
    modelled input runs out. The program would instead go on waiting.
  - Events other than quit and key down, and keys other than 1 and 2,
    are grouped as "other".
- Undefined behaviour is a precondition.
  - `scenes[currentSceneID]` out of range is covered by `InputSafe` and
    `RenderSafe`.
  - The `int` overflow of `currentSceneID++` is covered by `Fits` and
    `SlideSafe`, which require fewer than 2^31 scenes.
  - The layout offsets are unbounded mathematical integers, and their
    overflow is not a precondition. This covers `yOffset += textHeight + 10`
    (`src/main.cpp:278`, 289), `x + 10` and `width - 20` (line 259),
    `200 + (i * 40)` (line 378) and the slideshow's `yOffset += 50`.
    `TextLayout.LayoutOffsetsRise` and `TextLayout.LayoutEvenlySpaced` hold
    for any heights the measure returns, including heights for which the
    C++ `int` sum would overflow.
  - `Navigation.Game.Run` requires `Playable` chapters and a `Sound` start
    state, which the shipped chapters do not meet (see Findings).
- Navigation.Game.Run: states only that the game stays sound and when the
  loop ends, not the frames it presents. The frames of one tick are stated
  by `Navigation.Game.Render`.
- The unused `render` and `handleInput` of `src/main_broken.cpp`
  (311-329, 154-169) and its `renderWelcomeScreen` (331-341): `gameLoop`
  never calls them.
- The prose, choice texts, colours and image paths of `loadChapters`: only
  ids and targets matter for navigation (`Content.Skeleton`).
- The "Poulpe1" chapter of `src/main_broken.cpp` (130-134) is not part of
  the content facts. The slideshow never reads choice targets.
- The fixed texts of the two welcome screens are parameters: `Banner` and
  `prompt`. `SourceBanner` and `SourcePrompt` hold the texts the files
  use.
- `TTF_SizeText` is uninterpreted. Its result is not tied to the UTF-8
  rendering, and no monotonicity is assumed.

## Findings

| source | as written | input that shows it | evidently intended | confidence | as-written member | corrected member |
|---|---|---|---|---|---|---|
| src/main.cpp:204 | `{"Cyriel", 75}`: the "Taupe" chapter has 75 scenes (positions 0-74), so target 75 is past its end, and scene 72 ("Juliette accuse Cyriel…", src/main.cpp:206) is reached by no choice | in "Taupe" scene 70, press key 2: the position becomes 75, the next tick goes back to the menu without an ending, and a further key in the same batch reads `scenes[75]` | `{"Cyriel", 72}`, leading to the scene that tells this ending | not executed | Content.CyrielLeavesTheChapter | Content.CorrectedChaptersPlayable |
