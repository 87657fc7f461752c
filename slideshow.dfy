/**
 * The slideshow `Game` of src/main_broken.cpp. Its `gameLoop` reacts only
 * to quit events: every tick draws the scene at the current position and
 * moves one position on, and once past the last scene it goes back to
 * position 0 and opens the chapter-selection menu, which follows the same
 * rule as src/main.cpp but draws its own screen.
 *
 * `SCREEN_WIDTH` is not defined in that file; it is the constant
 * `screenWidth` here. The menu heading is the constant `prompt`, which the
 * file sets to `SourcePrompt`.
 */
module Slideshow {
  import opened TextLayout
  import opened Story
  import opened Menu
  import opened Navigation

  // ---------------------------------------------------------------------
  // renderScene

  /** The numbered choices below the dialogue, the first at y = 200 and 50 apart. */
  function ChoiceBlocks(choices: seq<Choice>, k: nat, width: int, font: Measure): (r: seq<seq<Placed>>)
    requires k <= |choices|
    ensures |r| == k
  {
    seq(k, i requires 0 <= i < k => Layout(Numbered(i, choices[i].text), 70, 200 + 50 * i, width - 140, font))
  }

  /** One more choice block, the one of choice i, after those of the first i. */
  lemma ChoiceBlocksSnoc(choices: seq<Choice>, i: nat, width: int, font: Measure, y: int, lines: seq<Placed>)
    requires i < |choices| && y == 200 + 50 * i
    requires lines == Layout(Numbered(i, choices[i].text), 70, y, width - 140, font)
    ensures ChoiceBlocks(choices, i, width, font) + [lines] == ChoiceBlocks(choices, i + 1, width, font)
  {
  }

  /** What `renderScene` presents: the dialogue at (50, 50), then the choices. */
  function SlideFrame(scene: Scene, width: int, font: Measure): Frame {
    Frame(scene.bgColor, scene.imagePath,
          [Layout(scene.dialogue, 50, 50, width - 100, font)] + ChoiceBlocks(scene.choices, |scene.choices|, width, font))
  }

  /** Choice block i starts with a line at (70, 200 + 50 i): a numbered text is never blank. */
  lemma ChoiceStart(choices: seq<Choice>, i: int, width: int, font: Measure)
    requires 0 <= i < |choices|
    ensures var b: seq<Placed> := ChoiceBlocks(choices, |choices|, width, font)[i];
            b != [] && b[0].x == 70 && b[0].y == 200 + 50 * i
  {
    NumberedStart(i, choices[i].text);
    LayoutStartsAt(Numbered(i, choices[i].text), 70, 200 + 50 * i, width - 140, font);
  }

  /** Element 1 + i of a sequence with one element in front is element i of the rest. */
  lemma AfterFirst<T>(first: T, rest: seq<T>, i: int)
    requires 0 <= i < |rest|
    ensures ([first] + rest)[1 + i] == rest[i]
  {
  }

  /** Block 1 + i of a slide is the block of choice i. */
  lemma SlideBlock(scene: Scene, width: int, font: Measure, i: int)
    requires 0 <= i < |scene.choices|
    ensures SlideFrame(scene, width, font).blocks[1 + i] == ChoiceBlocks(scene.choices, |scene.choices|, width, font)[i]
  {
    AfterFirst(Layout(scene.dialogue, 50, 50, width - 100, font), ChoiceBlocks(scene.choices, |scene.choices|, width, font), i);
  }

  /**
   * A slide has the scene's colour and image, the dialogue wrapped on its
   * own at (50, 50), then one block per choice, `(i+1) + ". " + text`
   * wrapped at (70, 200 + 50 i), whose first line is at that point.
   */
  lemma SlideLayout(scene: Scene, width: int, font: Measure)
    ensures SlideFrame(scene, width, font).background == scene.bgColor && SlideFrame(scene, width, font).image == scene.imagePath
    ensures |SlideFrame(scene, width, font).blocks| == 1 + |scene.choices|
    ensures SlideFrame(scene, width, font).blocks[0] == Layout(scene.dialogue, 50, 50, width - 100, font)
    ensures forall i :: 0 <= i < |scene.choices| ==>
              && SlideFrame(scene, width, font).blocks[1 + i] == ChoiceBlocks(scene.choices, |scene.choices|, width, font)[i]
              && SlideFrame(scene, width, font).blocks[1 + i] != []
              && SlideFrame(scene, width, font).blocks[1 + i][0].x == 70
              && SlideFrame(scene, width, font).blocks[1 + i][0].y == 200 + 50 * i
  {
    forall i | 0 <= i < |scene.choices|
      ensures SlideFrame(scene, width, font).blocks[1 + i] == ChoiceBlocks(scene.choices, |scene.choices|, width, font)[i]
      ensures SlideFrame(scene, width, font).blocks[1 + i] != [] && SlideFrame(scene, width, font).blocks[1 + i][0].x == 70
      ensures SlideFrame(scene, width, font).blocks[1 + i][0].y == 200 + 50 * i
    {
      SlideBlock(scene, width, font, i);
      ChoiceStart(scene.choices, i, width, font);
    }
  }

  // ---------------------------------------------------------------------
  // The menu screen of displayChapterSelectionMenu

  /** The heading src/main_broken.cpp draws above the chapter list. */
  const SourcePrompt: string := "Select a Chapter:"

  /** The numbered titles of the first `k` chapters, 50 apart from y = 150. */
  function MenuEntries(chapters: seq<Chapter>, k: nat, font: Measure): (r: seq<seq<Placed>>)
    requires k <= |chapters|
    ensures |r| == k
  {
    seq(k, i requires 0 <= i < k => Layout(Numbered(i, chapters[i].title), 100, 150 + i * 50, 600, font))
  }

  /** The screen presented after each batch the menu drains. */
  function MenuFrame(chapters: seq<Chapter>, prompt: string, font: Measure): Frame {
    Frame(Black, "", [Layout(prompt, 100, 100, 600, font)] + MenuEntries(chapters, |chapters|, font))
  }

  /** Menu entry i starts with a line at (100, 150 + 50 i). */
  lemma EntryStart(chapters: seq<Chapter>, i: int, font: Measure)
    requires 0 <= i < |chapters|
    ensures var b: seq<Placed> := MenuEntries(chapters, |chapters|, font)[i];
            b != [] && b[0].x == 100 && b[0].y == 150 + i * 50
  {
    NumberedStart(i, chapters[i].title);
    LayoutStartsAt(Numbered(i, chapters[i].title), 100, 150 + i * 50, 600, font);
  }

  /** Block 1 + i of the menu screen is the entry of chapter i. */
  lemma MenuBlock(chapters: seq<Chapter>, prompt: string, font: Measure, i: int)
    requires 0 <= i < |chapters|
    ensures MenuFrame(chapters, prompt, font).blocks[1 + i] == MenuEntries(chapters, |chapters|, font)[i]
  {
    AfterFirst(Layout(prompt, 100, 100, 600, font), MenuEntries(chapters, |chapters|, font), i);
  }

  /**
   * The menu screen is black, shows the heading at (100, 100), then one
   * block per chapter, `(i+1) + ". " + title` wrapped at (100, 150 + 50 i),
   * whose first line is at that point.
   */
  lemma MenuFrameLayout(chapters: seq<Chapter>, prompt: string, font: Measure)
    ensures MenuFrame(chapters, prompt, font).background == Black && MenuFrame(chapters, prompt, font).image == []
    ensures |MenuFrame(chapters, prompt, font).blocks| == 1 + |chapters|
    ensures MenuFrame(chapters, prompt, font).blocks[0] == Layout(prompt, 100, 100, 600, font)
    ensures forall i :: 0 <= i < |chapters| ==>
              && MenuFrame(chapters, prompt, font).blocks[1 + i] == MenuEntries(chapters, |chapters|, font)[i]
              && MenuFrame(chapters, prompt, font).blocks[1 + i] != []
              && MenuFrame(chapters, prompt, font).blocks[1 + i][0].x == 100
              && MenuFrame(chapters, prompt, font).blocks[1 + i][0].y == 150 + i * 50
  {
    forall i | 0 <= i < |chapters|
      ensures MenuFrame(chapters, prompt, font).blocks[1 + i] == MenuEntries(chapters, |chapters|, font)[i]
      ensures MenuFrame(chapters, prompt, font).blocks[1 + i] != [] && MenuFrame(chapters, prompt, font).blocks[1 + i][0].x == 100
      ensures MenuFrame(chapters, prompt, font).blocks[1 + i][0].y == 150 + i * 50
    {
      MenuBlock(chapters, prompt, font, i);
      EntryStart(chapters, i, font);
    }
  }

  // ---------------------------------------------------------------------
  // What a turn shows

  /** One presented screen: the slide of a scene, or the menu screen. */
  datatype Shot = Slide(scene: Scene) | MenuScreen

  /** The navigation fields, the input still pending and the screens shown by a run. */
  datatype Turn = Turn(nav: Nav, pending: seq<seq<Event>>, shown: seq<Shot>)

  /** The frame a screen presents. */
  function FrameOf(shot: Shot, chapters: seq<Chapter>, prompt: string, width: int, font: Measure): Frame {
    match shot
    case Slide(scene) => SlideFrame(scene, width, font)
    case MenuScreen => MenuFrame(chapters, prompt, font)
  }

  /** `f` applied to each element of `s`, in order. */
  function MapSeq<A, B>(f: A -> B, s: seq<A>): (r: seq<B>)
    ensures |r| == |s| && forall j :: 0 <= j < |s| ==> r[j] == f(s[j])
    decreases |s|
  {
    if s == [] then [] else MapSeq(f, s[..|s| - 1]) + [f(s[|s| - 1])]
  }

  lemma MapSnoc<A, B>(f: A -> B, s: seq<A>, x: A)
    ensures MapSeq(f, s + [x]) == MapSeq(f, s) + [f(x)]
  {
    assert (s + [x])[..|s|] == s;
  }

  /** Mapping two sequences one after the other maps each. */
  lemma MapAppend<A, B>(f: A -> B, a: seq<A>, b: seq<A>)
    ensures MapSeq(f, a + b) == MapSeq(f, a) + MapSeq(f, b)
  {
    var l := MapSeq(f, a + b);
    var r := MapSeq(f, a) + MapSeq(f, b);
    forall j | 0 <= j < |l| ensures l[j] == r[j] {
      if j < |a| {
        assert (a + b)[j] == a[j];
      } else {
        assert (a + b)[j] == b[j - |a|];
      }
    }
  }

  /** The frames of a sequence of screens, in order. */
  function Frames(shots: seq<Shot>, chapters: seq<Chapter>, prompt: string, width: int, font: Measure): (r: seq<Frame>)
    ensures |r| == |shots|
    ensures forall j :: 0 <= j < |shots| ==> r[j] == FrameOf(shots[j], chapters, prompt, width, font)
  {
    MapSeq(shot => FrameOf(shot, chapters, prompt, width, font), shots)
  }

  lemma FramesSnoc(shots: seq<Shot>, shot: Shot, chapters: seq<Chapter>, prompt: string, width: int, font: Measure)
    ensures Frames(shots + [shot], chapters, prompt, width, font)
              == Frames(shots, chapters, prompt, width, font) + [FrameOf(shot, chapters, prompt, width, font)]
  {
    MapSnoc(shot => FrameOf(shot, chapters, prompt, width, font), shots, shot);
  }

  /** The frames of two runs of screens are the frames of each, one after the other. */
  lemma FramesAppend(a: seq<Shot>, b: seq<Shot>, chapters: seq<Chapter>, prompt: string, width: int, font: Measure)
    ensures Frames(a + b, chapters, prompt, width, font) == Frames(a, chapters, prompt, width, font) + Frames(b, chapters, prompt, width, font)
  {
    MapAppend(shot => FrameOf(shot, chapters, prompt, width, font), a, b);
  }

  /** The frames presented so far plus a turn's frames, then the rest of the run. */
  lemma Regroup(before: seq<Frame>, turn: seq<Frame>, after: seq<Frame>, now: seq<Frame>)
    requires now == before + turn
    ensures now + after == before + (turn + after)
  {
  }

  /** `k` menu screens. */
  function MenuScreens(k: nat): (r: seq<Shot>)
    ensures |r| == k && forall j :: 0 <= j < k ==> r[j] == MenuScreen
  {
    if k == 0 then [] else MenuScreens(k - 1) + [MenuScreen]
  }

  /** A log holding k menu screens, with one more menu frame added, holds k + 1. */
  lemma OneMoreMenu(log: seq<Frame>, before: seq<Frame>, after: seq<Frame>, k: nat, chapters: seq<Chapter>, prompt: string, width: int, font: Measure)
    requires before == log + Frames(MenuScreens(k), chapters, prompt, width, font)
    requires after == before + [MenuFrame(chapters, prompt, font)]
    ensures after == log + Frames(MenuScreens(k + 1), chapters, prompt, width, font)
  {
    FramesSnoc(MenuScreens(k), MenuScreen, chapters, prompt, width, font);
  }

  /** The slides of a run of scenes, in order. */
  function SlidesOf(scenes: seq<Scene>): (r: seq<Shot>)
    ensures |r| == |scenes| && forall j :: 0 <= j < |scenes| ==> r[j] == Slide(scenes[j])
  {
    if scenes == [] then [] else [Slide(scenes[0])] + SlidesOf(scenes[1..])
  }

  /** The slides from position i on: the slide of scene i, then those after it. */
  lemma SlidesFrom(scenes: seq<Scene>, i: int)
    requires 0 <= i < |scenes|
    ensures SlidesOf(scenes[i..]) == [Slide(scenes[i])] + SlidesOf(scenes[i + 1..])
  {
    assert scenes[i..][1..] == scenes[i + 1..];
  }

  /** `displayChapterSelectionMenu`: a menu screen after every batch it consumes. */
  function SelectionSpec(chapters: seq<Chapter>, s: Nav, pending: seq<seq<Event>>): (r: Turn)
    ensures |r.pending| <= |pending|
  {
    var m := MenuLoop(chapters, MenuState(s, true), pending);
    Turn(m.0.nav, pending[m.1..], MenuScreens(m.1))
  }

  // ---------------------------------------------------------------------
  // gameLoop

  /** Every chapter has fewer than 2^31 scenes, so `currentSceneID++` cannot overflow. */
  predicate Fits(chapters: seq<Chapter>) {
    forall c :: 0 <= c < |chapters| ==> |chapters[c].scenes| < 0x8000_0000
  }

  /** The position is an `int` and the scenes fewer than 2^31. */
  predicate SlideSafe(s: Nav) {
    IsInt32(s.sceneID) && |s.scenes| < 0x8000_0000
  }

  /**
   * `currentSceneID < scenes.size()`: the `int` is converted to `size_t`,
   * so a negative position counts as past the end.
   */
  predicate ShowsScene(id: int, count: nat): (r: bool)
    ensures IsInt32(id) && count < 0x8000_0000 ==> (r <==> 0 <= id < count)
  {
    ToSizeT(id) < count
  }

  /** The drain loop of `gameLoop`: a quit event clears `isRunning`, nothing else counts. */
  function Drained(s: Nav, batch: seq<Event>): Nav {
    if Quit in batch then s.(running := false) else s
  }

  /**
   * One turn of `gameLoop` on the batch `batch`, with the batches `later`
   * still to come: the slide at the current position and one position on,
   * or, past the end, position 0 and the menu.
   */
  function TickSpec(chapters: seq<Chapter>, s: Nav, batch: seq<Event>, later: seq<seq<Event>>): (r: Turn)
    requires SlideSafe(s)
    ensures |r.pending| <= |later|
  {
    var d := Drained(s, batch);
    if ShowsScene(d.sceneID, |d.scenes|) then
      Turn(d.(sceneID := d.sceneID + 1), later, [Slide(d.scenes[d.sceneID])])
    else
      SelectionSpec(chapters, d.(sceneID := 0), later)
  }

  /** A turn keeps the position an `int` and the scene count below 2^31. */
  lemma TickKeepsSafe(chapters: seq<Chapter>, s: Nav, batch: seq<Event>, later: seq<seq<Event>>)
    requires Fits(chapters) && SlideSafe(s)
    ensures SlideSafe(TickSpec(chapters, s, batch, later).nav)
  {
    var d := Drained(s, batch);
    if !ShowsScene(d.sceneID, |d.scenes|) {
      MenuLoopEffect(chapters, MenuState(d.(sceneID := 0), true), later);
      var k := MenuLoop(chapters, MenuState(d.(sceneID := 0), true), later).1;
      var sel := AllSelections(|chapters|, later[..k]);
      if sel != [] {
        assert Last(sel) < |chapters|;
      }
    }
  }

  /** `gameLoop`: turns while the game runs and input is left. */
  function RunSpec(chapters: seq<Chapter>, s: Nav, pending: seq<seq<Event>>): Turn
    requires Fits(chapters) && SlideSafe(s)
    decreases |pending|
  {
    if !s.running || pending == [] then Turn(s, pending, [])
    else
      var t := TickSpec(chapters, s, pending[0], pending[1..]);
      TickKeepsSafe(chapters, s, pending[0], pending[1..]);
      var u := RunSpec(chapters, t.nav, t.pending);
      Turn(u.nav, u.pending, t.shown + u.shown)
  }

  /**
   * A turn at a position inside the chapter shows that scene's slide and
   * moves exactly one position on, whatever keys were pressed; a quit
   * only clears `running`.
   */
  lemma TickShows(chapters: seq<Chapter>, s: Nav, batch: seq<Event>, later: seq<seq<Event>>)
    requires SlideSafe(s) && 0 <= s.sceneID < |s.scenes|
    ensures TickSpec(chapters, s, batch, later)
              == Turn(s.(running := s.running && Quit !in batch, sceneID := s.sceneID + 1), later, [Slide(s.scenes[s.sceneID])])
  {
    assert ShowsScene(Drained(s, batch).sceneID, |Drained(s, batch).scenes|);
  }

  /**
   * A turn anywhere else sets the position to 0 and runs the menu: only
   * menu screens are shown and the chapter changes only by the selections
   * of the batches the menu consumes.
   */
  lemma TickPastEnd(chapters: seq<Chapter>, s: Nav, batch: seq<Event>, later: seq<seq<Event>>)
    requires SlideSafe(s) && !(0 <= s.sceneID < |s.scenes|)
    ensures var t := TickSpec(chapters, s, batch, later);
            var k := |later| - |t.pending|;
            var sel := AllSelections(|chapters|, later[..k]);
            && 0 <= k <= |later| && t.pending == later[k..]
            && t.shown == MenuScreens(k)
            && t.nav.sceneID == 0
            && t.nav.chapterID == (if sel == [] then s.chapterID else Last(sel))
            && t.nav.scenes == (if sel == [] then s.scenes else chapters[Last(sel)].scenes)
            && t.nav.music == s.music + sel
            && t.nav.running == (s.running && Quit !in batch && NoQuit(later[..k]))
            && Consumed(|chapters|, later, k)
  {
    var d := Drained(s, batch);
    var m := MenuLoop(chapters, MenuState(d.(sceneID := 0), true), later);
    assert TickSpec(chapters, s, batch, later) == Turn(m.0.nav, later[m.1..], MenuScreens(m.1)) by {
      assert !ShowsScene(d.sceneID, |d.scenes|);
    }
    assert d.(sceneID := 0).running == (s.running && Quit !in batch);
    MenuLoopEffect(chapters, MenuState(d.(sceneID := 0), true), later);
    MenuLoopConsumed(chapters, MenuState(d.(sceneID := 0), true), later);
  }

  /** Which keys a batch holds never matters, only whether it holds a quit. */
  lemma OnlyQuitMatters(chapters: seq<Chapter>, s: Nav, b1: seq<Event>, b2: seq<Event>, later: seq<seq<Event>>)
    requires SlideSafe(s) && (Quit in b1 <==> Quit in b2)
    ensures TickSpec(chapters, s, b1, later) == TickSpec(chapters, s, b2, later)
  {
  }

  /** Unfolding `RunSpec` once: the first turn, then the rest of the run. */
  lemma RunStep(chapters: seq<Chapter>, s: Nav, pending: seq<seq<Event>>)
    requires Fits(chapters) && SlideSafe(s) && s.running && pending != []
    ensures var t := TickSpec(chapters, s, pending[0], pending[1..]);
            && SlideSafe(t.nav)
            && var u := RunSpec(chapters, t.nav, t.pending);
               RunSpec(chapters, s, pending) == Turn(u.nav, u.pending, t.shown + u.shown)
  {
    TickKeepsSafe(chapters, s, pending[0], pending[1..]);
  }

  /** Dropping the first batch keeps a run of batches free of quits. */
  lemma SlideThenRest(chapters: seq<Chapter>, s: Nav, pending: seq<seq<Event>>)
    requires Fits(chapters) && SlideSafe(s) && s.running && 0 <= s.sceneID < |s.scenes|
    requires pending != [] && Quit !in pending[0]
    ensures SlideSafe(s.(sceneID := s.sceneID + 1))
    ensures var r := RunSpec(chapters, s.(sceneID := s.sceneID + 1), pending[1..]);
            RunSpec(chapters, s, pending) == Turn(r.nav, r.pending, [Slide(s.scenes[s.sceneID])] + r.shown)
  {
    TickShows(chapters, s, pending[0], pending[1..]);
    RunStep(chapters, s, pending);
  }

  /** A run that shows `head` and continues as `r`, where `r` shows `mid` and continues as `u`. */
  lemma Chain(x: Turn, r: Turn, u: Turn, head: seq<Shot>, mid: seq<Shot>, all: seq<Shot>)
    requires x == Turn(r.nav, r.pending, head + r.shown)
    requires r == Turn(u.nav, u.pending, mid + u.shown)
    requires all == head + mid
    ensures x == Turn(u.nav, u.pending, all + u.shown)
  {
  }

  /**
   * From position `i` of a chapter of n scenes, with one batch for each of
   * the n - i turns and no quit among them, the game shows the slides of
   * positions i, ..., n - 1, each once and in order, and then goes on from
   * position n, past the end, with the input that is left; keys are never
   * consulted.
   */
  lemma {:induction false} SlidesInOrder(chapters: seq<Chapter>, s: Nav, batches: seq<seq<Event>>, later: seq<seq<Event>>)
    requires Fits(chapters) && SlideSafe(s) && s.running
    requires 0 <= s.sceneID && s.sceneID + |batches| == |s.scenes| && NoQuit(batches)
    ensures SlideSafe(s.(sceneID := |s.scenes|))
    ensures var u := RunSpec(chapters, s.(sceneID := |s.scenes|), later);
            RunSpec(chapters, s, batches + later) == Turn(u.nav, u.pending, SlidesOf(s.scenes[s.sceneID..]) + u.shown)
    decreases |batches|
  {
    var n := |s.scenes|;
    var i := s.sceneID;
    if batches != [] {
      var s1 := s.(sceneID := i + 1);
      var all := batches + later;
      var rest := batches[1..] + later;
      assert SlideSafe(s1);
      var x := RunSpec(chapters, s, all);
      var r := RunSpec(chapters, s1, rest);
      var u := RunSpec(chapters, s.(sceneID := n), later);
      assert x == Turn(r.nav, r.pending, [Slide(s.scenes[i])] + r.shown) by {
        assert all[0] == batches[0] && all[1..] == rest;
        SlideThenRest(chapters, s, all);
      }
      assert r == Turn(u.nav, u.pending, SlidesOf(s.scenes[i + 1..]) + u.shown) by {
        assert NoQuit(batches[1..]) by {
          forall j | 0 <= j < |batches| - 1 ensures Quit !in batches[1..][j] {
            assert batches[1..][j] == batches[j + 1];
          }
        }
        SlidesInOrder(chapters, s1, batches[1..], later);
        assert s1.(sceneID := n) == s.(sceneID := n);
      }
      SlidesFrom(s.scenes, i);
      Chain(x, r, u, [Slide(s.scenes[i])], SlidesOf(s.scenes[i + 1..]), SlidesOf(s.scenes[i..]));
    } else {
      assert batches + later == later;
      assert s.(sceneID := n) == s;
    }
  }

  // ---------------------------------------------------------------------
  // The class

  class Game {
    const chapters: seq<Chapter>
    const font: Measure
    const prompt: string
    const screenWidth: int
    var isRunning: bool
    var scenes: seq<Scene>
    var currentSceneID: int
    var currentChapterID: int
    /** The chapters whose theme `playChapterMusic` (re)started, oldest first. */
    var musicLog: seq<nat>
    var pending: seq<seq<Event>>
    var presented: seq<Frame>

    /** The navigation fields. */
    function State(): Nav
      reads this
    {
      Nav(isRunning, scenes, currentSceneID, currentChapterID, musicLog)
    }

    /** `Game()` followed by `loadChapters()`: running, at scene 0 of chapter 0. */
    constructor (content: seq<Chapter>, heading: string, width: int, measure: Measure, input: seq<seq<Event>>)
      requires |content| > 0
      ensures chapters == content && prompt == heading && screenWidth == width && font == measure
      ensures State() == Nav(true, content[0].scenes, 0, 0, [])
      ensures pending == input && presented == []
    {
      chapters := content;
      font := measure;
      prompt := heading;
      screenWidth := width;
      isRunning := true;
      currentSceneID := 0;
      currentChapterID := 0;
      musicLog := [];
      pending := input;
      presented := [];
      scenes := content[0].scenes;
    }

    /** One `while (SDL_PollEvent(&event))` drain: the next batch of events. */
    method PollBatch() returns (batch: seq<Event>)
      modifies this
      ensures batch == NextBatch(old(pending)) && pending == Later(old(pending))
      ensures State() == old(State()) && presented == old(presented)
    {
      if pending == [] {
        batch := [];
      } else {
        batch := pending[0];
        pending := pending[1..];
      }
    }

    /** `playChapterMusic`: restart the theme of the current chapter. */
    method PlayChapterMusic()
      modifies this
      requires 0 <= currentChapterID < |chapters|
      ensures State() == old(State()).(music := old(musicLog) + [old(currentChapterID)])
      ensures pending == old(pending) && presented == old(presented)
    {
      musicLog := musicLog + [currentChapterID];
    }

    /** The inner drain loop of the menu over one batch. */
    method MenuHandleBatch(batch: seq<Event>) returns (selecting: bool)
      modifies this
      ensures MenuState(State(), selecting) == MenuBatch(chapters, MenuState(old(State()), true), batch)
      ensures pending == old(pending) && presented == old(presented)
    {
      ghost var m0 := MenuState(State(), true);
      selecting := true;
      for i := 0 to |batch|
        invariant MenuState(State(), selecting) == MenuBatch(chapters, m0, batch[..i])
        invariant pending == old(pending) && presented == old(presented)
      {
        var e := batch[i];
        assert batch[..i + 1][..i] == batch[..i];
        if e == Quit {
          isRunning := false;
          selecting := false;
        } else if e.KeyDown? {
          var selectedChapter := -1;
          if e.key == Key1 && |chapters| > 0 {
            selectedChapter := 0;
          } else if e.key == Key2 && |chapters| > 1 {
            selectedChapter := 1;
          }
          if selectedChapter != -1 {
            currentChapterID := selectedChapter;
            scenes := chapters[currentChapterID].scenes;
            PlayChapterMusic();
            selecting := false;
          }
        }
      }
      assert batch[..|batch|] == batch;
    }

    /** The menu screen: the heading and the numbered titles. */
    method RenderMenu()
      modifies this
      ensures presented == old(presented) + [MenuFrame(chapters, prompt, font)]
      ensures State() == old(State()) && pending == old(pending)
    {
      var heading := RenderText(prompt, 100, 100, 600, font);
      var entries := RenderEntries();
      presented := presented + [Frame(Black, "", [heading] + entries)];
    }

    /** The `for` loop over the chapters: one numbered title each. */
    method RenderEntries() returns (blocks: seq<seq<Placed>>)
      ensures blocks == MenuEntries(chapters, |chapters|, font)
    {
      blocks := [];
      for i := 0 to |chapters|
        invariant blocks == MenuEntries(chapters, i, font)
      {
        var lines := RenderText(NatToString(i + 1) + ". " + chapters[i].title, 100, 150 + i * 50, 600, font);
        blocks := blocks + [lines];
      }
    }

    /** `displayChapterSelectionMenu`: batches and menu screens until a selection or a quit. */
    method DisplayChapterSelectionMenu()
      modifies this
      ensures var t := SelectionSpec(chapters, old(State()), old(pending));
              State() == t.nav && pending == t.pending && presented == old(presented) + Frames(t.shown, chapters, prompt, screenWidth, font)
    {
      ghost var p0 := pending;
      ghost var f0 := presented;
      ghost var whole := MenuLoop(chapters, MenuState(State(), true), p0);
      var selecting := true;
      ghost var k: nat := 0;
      while selecting && pending != []
        invariant k <= |p0| && pending == p0[k..]
        invariant whole.0 == MenuLoop(chapters, MenuState(State(), selecting), pending).0
        invariant whole.1 == MenuLoop(chapters, MenuState(State(), selecting), pending).1 + k
        invariant presented == f0 + Frames(MenuScreens(k), chapters, prompt, screenWidth, font)
        decreases |pending|
      {
        MenuLoopStep(chapters, MenuState(State(), selecting), pending);
        var batch := PollBatch();
        selecting := MenuHandleBatch(batch);
        ghost var before := presented;
        RenderMenu();
        OneMoreMenu(f0, before, presented, k, chapters, prompt, screenWidth, font);
        k := k + 1;
      }
      assert MenuLoop(chapters, MenuState(State(), selecting), pending) == (MenuState(State(), selecting), 0);
    }

    /** `renderScene`: the dialogue, then the choices. */
    method RenderScene(scene: Scene)
      modifies this
      ensures presented == old(presented) + [SlideFrame(scene, screenWidth, font)]
      ensures State() == old(State()) && pending == old(pending)
    {
      var dialogue := RenderText(scene.dialogue, 50, 50, screenWidth - 100, font);
      var choices := RenderChoices(scene.choices);
      presented := presented + [Frame(scene.bgColor, scene.imagePath, [dialogue] + choices)];
    }

    /** The `for` loop of `renderScene`, with its `yOffset` 50 apart from 200. */
    method RenderChoices(choices: seq<Choice>) returns (blocks: seq<seq<Placed>>)
      ensures blocks == ChoiceBlocks(choices, |choices|, screenWidth, font)
    {
      blocks := [];
      var yOffset := 200;
      for i := 0 to |choices|
        invariant yOffset == 200 + 50 * i
        invariant blocks == ChoiceBlocks(choices, i, screenWidth, font)
      {
        var lines := RenderChoice(i, choices[i].text, yOffset);
        ChoiceBlocksSnoc(choices, i, screenWidth, font, yOffset, lines);
        blocks := blocks + [lines];
        yOffset := yOffset + 50;
      }
    }

    /** One turn of that loop: `(i+1) + ". " + text` wrapped at (70, yOffset). */
    method RenderChoice(i: nat, text: string, yOffset: int) returns (lines: seq<Placed>)
      ensures lines == Layout(Numbered(i, text), 70, yOffset, screenWidth - 140, font)
    {
      var choiceText := NatToString(i + 1) + ". " + text;
      lines := RenderText(choiceText, 70, yOffset, screenWidth - 140, font);
    }

    /** The drain loop of `gameLoop`: only a quit event does anything. */
    method DrainEvents()
      modifies this
      ensures State() == Drained(old(State()), NextBatch(old(pending)))
      ensures pending == Later(old(pending)) && presented == old(presented)
    {
      var batch := PollBatch();
      for i := 0 to |batch|
        invariant State() == Drained(old(State()), batch[..i])
        invariant pending == Later(old(pending)) && presented == old(presented)
      {
        assert batch[..i + 1] == batch[..i] + [batch[i]];
        if batch[i] == Quit {
          isRunning := false;
        }
      }
      assert batch[..|batch|] == batch;
    }

    /** One turn of the `while (isRunning)` loop of `gameLoop`. */
    method Step()
      modifies this
      requires SlideSafe(State()) && pending != []
      ensures var t := TickSpec(chapters, old(State()), old(pending)[0], old(pending)[1..]);
              State() == t.nav && pending == t.pending && presented == old(presented) + Frames(t.shown, chapters, prompt, screenWidth, font)
    {
      DrainEvents();
      if ToSizeT(currentSceneID) < |scenes| {
        ghost var scene := scenes[currentSceneID];
        RenderScene(scenes[currentSceneID]);
        currentSceneID := currentSceneID + 1;
        FramesSnoc([], Slide(scene), chapters, prompt, screenWidth, font);
      } else {
        currentSceneID := 0;
        DisplayChapterSelectionMenu();
      }
    }

    /**
     * `gameLoop`: turns while the game runs and input is left. The modelled
     * input is finite, so the loop also ends when it runs out.
     */
    method GameLoop()
      modifies this
      requires Fits(chapters) && SlideSafe(State())
      ensures var t := RunSpec(chapters, old(State()), old(pending));
              State() == t.nav && pending == t.pending && presented == old(presented) + Frames(t.shown, chapters, prompt, screenWidth, font)
      ensures !isRunning || pending == []
    {
      ghost var whole := RunSpec(chapters, State(), pending);
      ghost var f0 := presented;
      ghost var rest := whole;
      while isRunning && pending != []
        invariant SlideSafe(State())
        invariant rest == RunSpec(chapters, State(), pending)
        invariant rest.nav == whole.nav && rest.pending == whole.pending
        invariant presented + Frames(rest.shown, chapters, prompt, screenWidth, font) == f0 + Frames(whole.shown, chapters, prompt, screenWidth, font)
        decreases |pending|
      {
        ghost var t := TickSpec(chapters, State(), pending[0], pending[1..]);
        RunStep(chapters, State(), pending);
        ghost var next := RunSpec(chapters, t.nav, t.pending);
        assert rest.nav == next.nav && rest.pending == next.pending && rest.shown == t.shown + next.shown;
        FramesAppend(t.shown, next.shown, chapters, prompt, screenWidth, font);
        ghost var p := presented;
        Step();
        assert State() == t.nav && pending == t.pending;
        Regroup(p, Frames(t.shown, chapters, prompt, screenWidth, font), Frames(next.shown, chapters, prompt, screenWidth, font), presented);
        rest := next;
      }
      assert rest == Turn(State(), pending, []);
    }
  }
}
