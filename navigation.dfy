/**
 * The `Game` class of src/main.cpp: input handling, the per-tick render
 * with its "past the end" rule, the scene text block, the welcome screen,
 * the chapter-selection menu and `startChapter`.
 *
 * SDL is replaced by two fields: `pending`, the batches of events that the
 * successive `while (SDL_PollEvent(&event))` drain loops will find, and
 * `presented`, the frames passed to `SDL_RenderPresent` so far. The font's
 * `TTF_SizeText` is the parameter `font`.
 */
module Navigation {
  import opened Wrappers
  import opened TextLayout
  import opened Story
  import opened Menu

  // ---------------------------------------------------------------------
  // The unsigned comparison of `render`

  const SizeModulus: int := 0x1_0000_0000_0000_0000

  /** `int` values the C++ `int` fields can hold. */
  predicate IsInt32(v: int) {
    -0x8000_0000 <= v < 0x8000_0000
  }

  /** An `int` converted to the 64-bit `size_t`: reduced modulo 2^64. */
  function ToSizeT(v: int): (r: nat)
    ensures r < SizeModulus
    ensures 0 <= v < SizeModulus ==> r == v
    ensures -SizeModulus <= v < 0 ==> r == v + SizeModulus
  {
    v % SizeModulus
  }

  /**
   * `currentSceneID < scenes.size() - 1`: both sides are `size_t`, so a
   * negative position is a huge number and, with no scenes at all, the
   * right-hand side wraps to the largest `size_t`.
   */
  predicate DrawsScene(id: int, count: nat): (r: bool)
    ensures IsInt32(id) && 0 < count <= 0x8000_0000 ==> (r <==> 0 <= id < count - 1)
    ensures count == 0 && 0 <= id < SizeModulus - 1 ==> r
  {
    ToSizeT(id) < ToSizeT(count - 1)
  }

  // ---------------------------------------------------------------------
  // handleInput

  /** The events for which `handleInput` reads `scenes[currentSceneID]`. */
  predicate ReadsScene(e: Event) {
    e == KeyDown(Key1) || e == KeyDown(Key2)
  }

  /** The event can be handled without reading outside `scenes`. */
  predicate EventSafe(s: Nav, e: Event) {
    ReadsScene(e) ==> 0 <= s.sceneID < |s.scenes|
  }

  /** The event follows a choice of the current scene. */
  predicate Moves(s: Nav, e: Event)
    requires EventSafe(s, e)
  {
    || (e == KeyDown(Key1) && |s.scenes[s.sceneID].choices| > 0)
    || (e == KeyDown(Key2) && |s.scenes[s.sceneID].choices| > 1)
  }

  /** One event of the drain loop of `handleInput`. */
  function OnEvent(s: Nav, e: Event): Nav
    requires EventSafe(s, e)
  {
    match e
    case Quit => s.(running := false)
    case OtherEvent => s
    case KeyDown(k) =>
      if k == Key1 && |s.scenes[s.sceneID].choices| > 0 then
        s.(sceneID := s.scenes[s.sceneID].choices[0].nextSceneID)
      else if k == Key2 && |s.scenes[s.sceneID].choices| > 1 then
        s.(sceneID := s.scenes[s.sceneID].choices[1].nextSceneID)
      else s
  }

  /**
   * Every event of the batch reads inside `scenes`, each in the state the
   * events before it left. Otherwise the C++ reads `scenes` out of range.
   */
  predicate InputSafe(s: Nav, batch: seq<Event>)
    decreases |batch|
  {
    batch == [] || (EventSafe(s, batch[0]) && InputSafe(OnEvent(s, batch[0]), batch[1..]))
  }

  /** One batch, handled first to last. */
  function OnBatch(s: Nav, batch: seq<Event>): Nav
    requires InputSafe(s, batch)
    decreases |batch|
  {
    if batch == [] then s else OnBatch(OnEvent(s, batch[0]), batch[1..])
  }

  /** How many events of the batch followed a choice. */
  function MoveCount(s: Nav, batch: seq<Event>): nat
    requires InputSafe(s, batch)
    decreases |batch|
  {
    if batch == [] then 0
    else (if Moves(s, batch[0]) then 1 else 0) + MoveCount(OnEvent(s, batch[0]), batch[1..])
  }

  /**
   * Input handling never changes the chapter, its scenes or its music. The
   * game keeps running exactly when the batch holds no quit event.
   */
  lemma {:induction false} InputKeepsChapter(s: Nav, batch: seq<Event>)
    requires InputSafe(s, batch)
    ensures var r := OnBatch(s, batch);
            && r.chapterID == s.chapterID && r.scenes == s.scenes && r.music == s.music
            && r.running == (s.running && Quit !in batch)
    decreases |batch|
  {
    if batch != [] {
      InputKeepsChapter(OnEvent(s, batch[0]), batch[1..]);
      assert batch == [batch[0]] + batch[1..];
    }
  }

  /** `t` is the target of the first or second choice of some scene. */
  predicate IsKeyTarget(scenes: seq<Scene>, t: int) {
    exists i, j :: 0 <= i < |scenes| && 0 <= j < 2 && j < |scenes[i].choices| && scenes[i].choices[j].nextSceneID == t
  }

  /** After a batch the position is the old one or the target of a key 1/2 choice. */
  lemma {:induction false} InputFollowsChoices(s: Nav, batch: seq<Event>)
    requires InputSafe(s, batch)
    ensures OnBatch(s, batch).sceneID == s.sceneID || IsKeyTarget(s.scenes, OnBatch(s, batch).sceneID)
    decreases |batch|
  {
    if batch != [] {
      var s1 := OnEvent(s, batch[0]);
      InputFollowsChoices(s1, batch[1..]);
      if s1.sceneID != s.sceneID {
        var cs := s.scenes[s.sceneID].choices;
        var j := if batch[0] == KeyDown(Key1) then 0 else 1;
        assert cs[j].nextSceneID == s1.sceneID;
      }
    }
  }

  /** Every choice of every scene leads to a position inside the chapter. */
  predicate Closed(scenes: seq<Scene>) {
    forall i, j :: 0 <= i < |scenes| && 0 <= j < |scenes[i].choices| ==>
      0 <= scenes[i].choices[j].nextSceneID < |scenes|
  }

  /** In a closed chapter no batch of input reads outside `scenes`, and the position stays inside. */
  lemma {:induction false} ClosedInputSafe(s: Nav, batch: seq<Event>)
    requires Closed(s.scenes) && 0 <= s.sceneID < |s.scenes|
    ensures InputSafe(s, batch) && 0 <= OnBatch(s, batch).sceneID < |s.scenes|
    decreases |batch|
  {
    if batch != [] {
      ClosedInputSafe(OnEvent(s, batch[0]), batch[1..]);
    }
  }

  /** A scene without choices is never left by input. */
  lemma {:induction false} TerminalScene(s: Nav, batch: seq<Event>)
    requires 0 <= s.sceneID < |s.scenes| && s.scenes[s.sceneID].choices == []
    ensures InputSafe(s, batch) && OnBatch(s, batch).sceneID == s.sceneID
    ensures MoveCount(s, batch) == 0
    decreases |batch|
  {
    if batch != [] {
      TerminalScene(OnEvent(s, batch[0]), batch[1..]);
    }
  }

  /**
   * One key press: key 1 with at least one choice follows the first, key 2
   * with at least two follows the second, anything else changes nothing.
   */
  lemma KeyPress(s: Nav, k: Key)
    requires 0 <= s.sceneID < |s.scenes|
    ensures InputSafe(s, [KeyDown(k)])
    ensures var cs := s.scenes[s.sceneID].choices;
            var r := OnBatch(s, [KeyDown(k)]);
            && (k == Key1 && |cs| >= 1 ==> r == s.(sceneID := cs[0].nextSceneID))
            && (k == Key2 && |cs| >= 2 ==> r == s.(sceneID := cs[1].nextSceneID))
            && (!(k == Key1 && |cs| >= 1) && !(k == Key2 && |cs| >= 2) ==> r == s)
            && MoveCount(s, [KeyDown(k)]) == (if (k == Key1 && |cs| >= 1) || (k == Key2 && |cs| >= 2) then 1 else 0)
  {
    assert [KeyDown(k)][1..] == [];
  }

  // ---------------------------------------------------------------------
  // The scene text block of `render`

  /** `textBox` after the first `k` turns of the `for` loop of `render`. */
  function TextBoxUpTo(dialogue: string, choices: seq<Choice>, k: nat): string
    requires k <= |choices|
  {
    if k == 0 then dialogue
    else TextBoxUpTo(dialogue, choices, k - 1) + "\n" + Numbered(k - 1, choices[k - 1].text)
  }

  /** The text `render` puts in the box of a scene. */
  function TextBox(scene: Scene): string {
    TextBoxUpTo(scene.dialogue, scene.choices, |scene.choices|)
  }

  /** The numbered labels of the first `k` choices. */
  function ChoiceLines(choices: seq<Choice>, k: nat): (r: seq<string>)
    requires k <= |choices|
    ensures |r| == k && forall j :: 0 <= j < k ==> r[j] == Numbered(j, choices[j].text)
  {
    if k == 0 then [] else ChoiceLines(choices, k - 1) + [Numbered(k - 1, choices[k - 1].text)]
  }

  /** Neither the dialogue nor any label starts a new line by itself. */
  predicate SingleLines(dialogue: string, choices: seq<Choice>) {
    '\n' !in dialogue && forall j :: 0 <= j < |choices| ==> '\n' !in choices[j].text
  }

  /** `first`, then each of `rest` on a line of its own. */
  function Joined(first: string, rest: seq<string>): (r: string)
    ensures rest != [] ==> r != []
    decreases |rest|
  {
    if rest == [] then first else Joined(first, rest[..|rest| - 1]) + "\n" + rest[|rest| - 1]
  }

  /** Non-empty texts without '\n'. */
  predicate Lines(ls: seq<string>) {
    forall j :: 0 <= j < |ls| ==> ls[j] != [] && '\n' !in ls[j]
  }

  /** A joined text never ends in '\n'. */
  lemma JoinedEnd(first: string, rest: seq<string>)
    requires '\n' !in first && Lines(rest)
    ensures var t := Joined(first, rest); t != [] ==> t[|t| - 1] != '\n'
  {
    if rest != [] {
      var t := Joined(first, rest);
      var last := rest[|rest| - 1];
      assert last != [] && '\n' !in last;
      assert t[|t| - 1] == last[|last| - 1];
    }
  }

  /** Read back with `std::getline`, a joined text gives its pieces back. */
  lemma {:induction false} JoinedParagraphs(first: string, rest: seq<string>)
    requires '\n' !in first && Lines(rest)
    requires first != [] || rest != []
    ensures Paragraphs(Joined(first, rest)) == [first] + rest
    decreases |rest|
  {
    if rest == [] {
      GetLineWhole(first);
    } else {
      var init := rest[..|rest| - 1];
      var last := rest[|rest| - 1];
      var prev := Joined(first, init);
      assert Lines(init) by {
        forall j | 0 <= j < |init| ensures init[j] != [] && '\n' !in init[j] {
          assert init[j] == rest[j];
        }
      }
      assert rest == init + [last];
      if prev == [] {
        assert init == [];
        FirstLineParagraphs(last);
      } else {
        JoinedParagraphs(first, init);
        JoinedEnd(first, init);
        ParagraphsSnoc(prev, last);
      }
    }
  }

  /** An empty first piece still gives an empty first paragraph. */
  lemma FirstLineParagraphs(lab: string)
    requires lab != [] && '\n' !in lab
    ensures Paragraphs([] + "\n" + lab) == [[], lab]
  {
    GetLineWhole(lab);
    GetLineBeforeNewline([], lab);
    assert [] + "\n" + lab == "\n" + lab;
  }

  /** The text block is the dialogue joined with the numbered labels. */
  lemma {:induction false} TextBoxJoined(dialogue: string, choices: seq<Choice>, k: nat)
    requires k <= |choices|
    ensures TextBoxUpTo(dialogue, choices, k) == Joined(dialogue, ChoiceLines(choices, k))
    decreases k
  {
    if k > 0 {
      TextBoxJoined(dialogue, choices, k - 1);
      var ls := ChoiceLines(choices, k);
      assert ls == ChoiceLines(choices, k - 1) + [Numbered(k - 1, choices[k - 1].text)];
      assert ls[..k - 1] == ChoiceLines(choices, k - 1);
      assert Joined(dialogue, ls) == Joined(dialogue, ls[..k - 1]) + "\n" + ls[k - 1];
    }
  }

  /** With single-line labels, the numbered labels are single non-empty lines. */
  lemma ChoiceLinesAreLines(choices: seq<Choice>, k: nat)
    requires k <= |choices|
    requires forall j :: 0 <= j < |choices| ==> '\n' !in choices[j].text
    ensures Lines(ChoiceLines(choices, k))
  {
    forall j | 0 <= j < k
      ensures ChoiceLines(choices, k)[j] != [] && '\n' !in ChoiceLines(choices, k)[j]
    {
      NumberedStart(j, choices[j].text);
    }
  }

  /**
   * Read back with `std::getline`, the text block is the dialogue followed
   * by one paragraph per choice, `(i+1) + ". " + label`.
   */
  lemma TextBoxParagraphs(dialogue: string, choices: seq<Choice>, k: nat)
    requires k <= |choices| && SingleLines(dialogue, choices)
    requires dialogue != [] || k > 0
    ensures Paragraphs(TextBoxUpTo(dialogue, choices, k)) == [dialogue] + ChoiceLines(choices, k)
  {
    TextBoxJoined(dialogue, choices, k);
    ChoiceLinesAreLines(choices, k);
    JoinedParagraphs(dialogue, ChoiceLines(choices, k));
  }

  /** The text block of a scene, built by `textBox +=`. */
  method ComposeTextBox(scene: Scene) returns (textBox: string)
    ensures textBox == TextBox(scene)
  {
    textBox := scene.dialogue;
    for i := 0 to |scene.choices|
      invariant textBox == TextBoxUpTo(scene.dialogue, scene.choices, i)
    {
      textBox := textBox + "\n" + (NatToString(i + 1) + ". " + scene.choices[i].text);
    }
  }

  /**
   * The lines a scene's text block is drawn as: `renderTextInBox(textBox,
   * 50, 400, 700, 180)` wraps at 700 - 20 = 680 from (60, 410).
   */
  function SceneLines(scene: Scene, font: Measure): seq<Placed> {
    Layout(TextBox(scene), 50 + 10, 400 + 10, 700 - 20, font)
  }

  /**
   * The scene's lines are the dialogue wrapped from (60, 410), then each
   * numbered label wrapped below it; their words are the dialogue's and then
   * the labels' words, and every line fits the 680-wide box.
   */
  lemma SceneLinesShape(scene: Scene, font: Measure)
    requires SingleLines(scene.dialogue, scene.choices)
    requires scene.dialogue != [] || scene.choices != []
    ensures SceneLines(scene, font) ==
            WrapParagraphs([scene.dialogue] + ChoiceLines(scene.choices, |scene.choices|), 60, 410, 680, font).lines
    ensures LineWords(SceneLines(scene, font)) ==
            ParagraphWords([scene.dialogue] + ChoiceLines(scene.choices, |scene.choices|))
    ensures AllAcceptable(SceneLines(scene, font), 680, font)
  {
    TextBoxParagraphs(scene.dialogue, scene.choices, |scene.choices|);
    LayoutAcceptable(TextBox(scene), 60, 410, 680, font);
    LayoutPreservesWords(TextBox(scene), 60, 410, 680, font);
    ParagraphWordsOfText(TextBox(scene));
  }

  /** What one scene tick presents: its colour, its image and the text block. */
  function SceneFrame(scene: Scene, font: Measure): Frame {
    Frame(scene.bgColor, scene.imagePath, [SceneLines(scene, font)])
  }

  /** What `renderBlackScreenWithDelay` presents. */
  const BlackFrame: Frame := Frame(Black, "", [])

  // ---------------------------------------------------------------------
  // The welcome screen

  /** The fixed texts of the welcome screen. */
  datatype Banner = Banner(festive: string, tagline: string, prompt: string, instructions: string, signature: string)

  /** The texts src/main.cpp draws. */
  const SourceBanner: Banner :=
    Banner("JOYEUX NOEL", "Le jeux dont tu es l'héroïne.", "Welcome! Select a Chapter:",
           "Appuie une fois sur le nombre qui correspond à ton choix.", "Je t'aime <3")

  /** The numbered titles of the first `k` chapters, 40 apart from y = 200. */
  function EntryBlocks(chapters: seq<Chapter>, k: nat, font: Measure): (r: seq<seq<Placed>>)
    requires k <= |chapters|
    ensures |r| == k
  {
    seq(k, i requires 0 <= i < k => Layout(Numbered(i, chapters[i].title), 100, 200 + i * 40, 600, font))
  }

  /** The three heading blocks of `renderWelcomeScreen`. */
  function Headings(b: Banner, font: Measure): seq<seq<Placed>> {
    [Layout(b.festive, 200, 50, 400, font), Layout(b.tagline, 100, 100, 600, font), Layout(b.prompt, 100, 150, 600, font)]
  }

  /** The two closing blocks; the instructions sit 20 below the last entry's slot. */
  function Closing(b: Banner, count: nat, font: Measure): seq<seq<Placed>> {
    [Layout(b.instructions, 100, 200 + count * 40 + 20, 600, font), Layout(b.signature, 300, 400, 200, font)]
  }

  /** What `renderWelcomeScreen` presents. */
  function WelcomeFrame(chapters: seq<Chapter>, b: Banner, font: Measure): Frame {
    Frame(Black, "", Headings(b, font) + EntryBlocks(chapters, |chapters|, font) + Closing(b, |chapters|, font))
  }

  /**
   * The welcome screen is black and has one block per chapter between the
   * three headings and the two closing lines; chapter i's entry reads
   * `(i+1) + ". " + title` and its first line is at (100, 200 + 40 i).
   */
  lemma WelcomeLayout(chapters: seq<Chapter>, banner: Banner, font: Measure)
    ensures WelcomeFrame(chapters, banner, font).background == Black && WelcomeFrame(chapters, banner, font).image == []
    ensures |WelcomeFrame(chapters, banner, font).blocks| == |chapters| + 5
    ensures WelcomeFrame(chapters, banner, font).blocks[|chapters| + 3]
              == Layout(banner.instructions, 100, 200 + |chapters| * 40 + 20, 600, font)
    ensures forall i :: 0 <= i < |chapters| ==>
              && WelcomeFrame(chapters, banner, font).blocks[3 + i] == Layout(Numbered(i, chapters[i].title), 100, 200 + i * 40, 600, font)
              && WelcomeFrame(chapters, banner, font).blocks[3 + i] != []
              && WelcomeFrame(chapters, banner, font).blocks[3 + i][0].x == 100
              && WelcomeFrame(chapters, banner, font).blocks[3 + i][0].y == 200 + i * 40
  {
    var es := EntryBlocks(chapters, |chapters|, font);
    var c := Closing(banner, |chapters|, font);
    assert WelcomeFrame(chapters, banner, font).blocks[|chapters| + 3] == c[0] by {
      InsideBlocks(Headings(banner, font), es, c, |chapters|);
    }
    forall i | 0 <= i < |chapters|
      ensures WelcomeFrame(chapters, banner, font).blocks[3 + i] == es[i]
      ensures es[i] == Layout(Numbered(i, chapters[i].title), 100, 200 + i * 40, 600, font)
      ensures WelcomeFrame(chapters, banner, font).blocks[3 + i] != []
      ensures WelcomeFrame(chapters, banner, font).blocks[3 + i][0].x == 100
      ensures WelcomeFrame(chapters, banner, font).blocks[3 + i][0].y == 200 + i * 40
    {
      InsideBlocks(Headings(banner, font), es, c, i);
      EntryStart(chapters, i, font);
    }
  }

  /** Element |h| + i of `h + e + c` is element i of `e`, or of `c` past the end of `e`. */
  lemma InsideBlocks<T>(h: seq<T>, e: seq<T>, c: seq<T>, i: int)
    requires 0 <= i < |e| + |c|
    ensures (h + e + c)[|h| + i] == if i < |e| then e[i] else c[i - |e|]
  {
  }

  /** Entry i starts with a line at (100, 200 + 40 i): a numbered text is never blank. */
  lemma EntryStart(chapters: seq<Chapter>, i: int, font: Measure)
    requires 0 <= i < |chapters|
    ensures EntryBlocks(chapters, |chapters|, font)[i] == Layout(Numbered(i, chapters[i].title), 100, 200 + i * 40, 600, font)
    ensures var b: seq<Placed> := EntryBlocks(chapters, |chapters|, font)[i];
            b != [] && b[0].x == 100 && b[0].y == 200 + i * 40
  {
    NumberedStart(i, chapters[i].title);
    LayoutStartsAt(Numbered(i, chapters[i].title), 100, 200 + i * 40, 600, font);
  }

  // ---------------------------------------------------------------------
  // The menu and the render tick

  /** The state, the input still pending and the frames presented by one call. */
  datatype Tick = Tick(nav: Nav, pending: seq<seq<Event>>, frames: seq<Frame>)

  /** A log holding k copies of a frame, with one more copy added, holds k + 1. */
  lemma RepeatSnoc(log: seq<Frame>, before: seq<Frame>, after: seq<Frame>, f: Frame, k: nat)
    requires before == log + Repeat(f, k) && after == before + [f]
    ensures after == log + Repeat(f, k + 1)
  {
  }

  /** `displayChapterSelectionMenu`: a welcome screen after every batch it consumes. */
  function MenuSpec(chapters: seq<Chapter>, banner: Banner, font: Measure, s: Nav, pending: seq<seq<Event>>): Tick {
    var r := MenuLoop(chapters, MenuState(s, true), pending);
    Tick(r.0.nav, pending[r.1..], Repeat(WelcomeFrame(chapters, banner, font), r.1))
  }

  /** `render` reads a scene only inside `scenes`. */
  predicate RenderSafe(s: Nav) {
    s.chapterID != -1 && DrawsScene(s.sceneID, |s.scenes|) ==> 0 <= s.sceneID < |s.scenes|
  }

  /** `render`: the welcome screen, one scene, or back to the menu from position 0. */
  function RenderSpec(chapters: seq<Chapter>, banner: Banner, font: Measure, s: Nav, pending: seq<seq<Event>>): Tick
    requires RenderSafe(s)
  {
    if s.chapterID == -1 then Tick(s, pending, [WelcomeFrame(chapters, banner, font)])
    else if DrawsScene(s.sceneID, |s.scenes|) then Tick(s, pending, [SceneFrame(s.scenes[s.sceneID], font)])
    else MenuSpec(chapters, banner, font, s.(chapterID := -1, sceneID := 0), pending)
  }

  /** `startChapter(c)`: select the chapter, restart its music and go to its first scene. */
  function StartChapterSpec(chapters: seq<Chapter>, s: Nav, c: nat): Nav
    requires c < |chapters|
  {
    Select(chapters, s, c).(sceneID := 0)
  }

  /**
   * A tick in a chapter draws the scene at the current position exactly when
   * that position is before the last one, and changes nothing else. From
   * the last position, or past it, only welcome screens are presented, the
   * position becomes 0 and the chapter becomes -1 unless the menu selected
   * one: the last scene of a chapter is never drawn.
   */
  lemma RenderBranches(chapters: seq<Chapter>, banner: Banner, font: Measure, s: Nav, pending: seq<seq<Event>>)
    requires s.chapterID != -1 && IsInt32(s.sceneID) && 0 < |s.scenes| <= 0x8000_0000
    ensures RenderSafe(s)
    ensures 0 <= s.sceneID < |s.scenes| - 1 ==>
              RenderSpec(chapters, banner, font, s, pending) == Tick(s, pending, [SceneFrame(s.scenes[s.sceneID], font)])
    ensures !(0 <= s.sceneID < |s.scenes| - 1) ==>
              var t := RenderSpec(chapters, banner, font, s, pending);
              var k := |pending| - |t.pending|;
              var sel := AllSelections(|chapters|, pending[..k]);
              && 0 <= k <= |pending| && t.pending == pending[k..]
              && t.frames == Repeat(WelcomeFrame(chapters, banner, font), k)
              && t.nav.sceneID == 0
              && t.nav.chapterID == (if sel == [] then -1 else Last(sel))
              && t.nav.scenes == (if sel == [] then s.scenes else chapters[Last(sel)].scenes)
              && t.nav.music == s.music + sel
              && t.nav.running == (s.running && NoQuit(pending[..k]))
              && Consumed(|chapters|, pending, k)
  {
    if !(0 <= s.sceneID < |s.scenes| - 1) {
      var m := MenuState(s.(chapterID := -1, sceneID := 0), true);
      MenuLoopEffect(chapters, m, pending);
      MenuLoopConsumed(chapters, m, pending);
    }
  }

  /**
   * When the menu reached from the last position selects one chapter, the
   * outcome is that of `startChapter` on it, but for `isRunning`, which a
   * quit among the consumed batches clears: with no quit the two agree
   * entirely. The position is 0 only because `render` reset it first,
   * since selection itself leaves the position alone.
   */
  lemma MenuAfterEndIsStartChapter(chapters: seq<Chapter>, banner: Banner, font: Measure, s: Nav, pending: seq<seq<Event>>, c: nat)
    requires s.chapterID != -1 && RenderSafe(s) && !DrawsScene(s.sceneID, |s.scenes|)
    requires var k := MenuLoop(chapters, MenuState(s.(chapterID := -1, sceneID := 0), true), pending).1;
             AllSelections(|chapters|, pending[..k]) == [c]
    ensures c < |chapters|
    ensures var t := RenderSpec(chapters, banner, font, s, pending);
            t.nav == StartChapterSpec(chapters, s, c).(running := t.nav.running)
    ensures var t := RenderSpec(chapters, banner, font, s, pending);
            var k := |pending| - |t.pending|;
            && 0 <= k <= |pending|
            && t.nav.running == (s.running && NoQuit(pending[..k]))
            && (NoQuit(pending[..k]) ==> t.nav == StartChapterSpec(chapters, s, c))
  {
    var m := MenuState(s.(chapterID := -1, sceneID := 0), true);
    MenuLoopEffect(chapters, m, pending);
    var k := MenuLoop(chapters, m, pending).1;
    assert AllSelections(|chapters|, pending[..k])[0] == c;
  }

  /** The menu never moves the position; `startChapter` always sets it to 0. */
  lemma SelectionKeepsPosition(chapters: seq<Chapter>, banner: Banner, font: Measure, s: Nav, pending: seq<seq<Event>>, c: nat)
    requires c < |chapters|
    ensures MenuSpec(chapters, banner, font, s, pending).nav.sceneID == s.sceneID
    ensures StartChapterSpec(chapters, s, c).sceneID == 0
    ensures StartChapterSpec(chapters, s, c).music == s.music + [c]
  {
    MenuLoopEffect(chapters, MenuState(s, true), pending);
  }

  /** One turn of the menu loop. */
  lemma MenuLoopStep(chapters: seq<Chapter>, m: MenuState, pending: seq<seq<Event>>)
    requires m.selecting && pending != []
    ensures var r := MenuLoop(chapters, MenuBatch(chapters, m, pending[0]), pending[1..]);
            MenuLoop(chapters, m, pending) == (r.0, r.1 + 1)
  {
  }

  /** The event at position i of a batch, seen from the state the events before it left. */
  lemma InputStep(s: Nav, batch: seq<Event>, i: nat)
    requires i < |batch| && InputSafe(s, batch[i..])
    ensures EventSafe(s, batch[i]) && InputSafe(OnEvent(s, batch[i]), batch[i + 1..])
    ensures OnBatch(s, batch[i..]) == OnBatch(OnEvent(s, batch[i]), batch[i + 1..])
    ensures MoveCount(s, batch[i..]) == (if Moves(s, batch[i]) then 1 else 0) + MoveCount(OnEvent(s, batch[i]), batch[i + 1..])
  {
    assert batch[i..][0] == batch[i] && batch[i..][1..] == batch[i + 1..];
  }

  /** Every chapter has between 1 and 2^31 scenes and is closed. */
  predicate Playable(chapters: seq<Chapter>) {
    forall c :: 0 <= c < |chapters| ==> 0 < |chapters[c].scenes| <= 0x8000_0000 && Closed(chapters[c].scenes)
  }

  /** The current scenes are non-empty, closed and hold the current position. */
  predicate Sound(s: Nav) {
    0 < |s.scenes| <= 0x8000_0000 && Closed(s.scenes) && 0 <= s.sceneID < |s.scenes|
  }

  /** Input in a sound state reads inside `scenes` and leaves the state sound. */
  lemma InputKeepsSound(s: Nav, batch: seq<Event>)
    requires Sound(s)
    ensures InputSafe(s, batch) && Sound(OnBatch(s, batch))
  {
    ClosedInputSafe(s, batch);
    InputKeepsChapter(s, batch);
  }

  /**
   * With playable chapters, a tick in a sound state reads inside `scenes`
   * and leaves the state sound: the menu only ever installs a playable
   * chapter and restarts from position 0.
   */
  lemma RenderKeepsSound(chapters: seq<Chapter>, banner: Banner, font: Measure, s: Nav, pending: seq<seq<Event>>)
    requires Playable(chapters) && Sound(s)
    ensures RenderSafe(s) && Sound(RenderSpec(chapters, banner, font, s, pending).nav)
    ensures |RenderSpec(chapters, banner, font, s, pending).pending| <= |pending|
  {
    if s.chapterID != -1 {
      RenderBranches(chapters, banner, font, s, pending);
      if !(0 <= s.sceneID < |s.scenes| - 1) {
        var t := RenderSpec(chapters, banner, font, s, pending);
        var k := |pending| - |t.pending|;
        var sel := AllSelections(|chapters|, pending[..k]);
        if sel != [] {
          assert Last(sel) < |chapters|;
        }
      }
    }
  }

  /** The next batch the drain loop finds, empty once the input has run out. */
  function NextBatch(pending: seq<seq<Event>>): seq<Event> {
    if pending == [] then [] else pending[0]
  }

  /** The batches after the next one. */
  function Later(pending: seq<seq<Event>>): seq<seq<Event>> {
    if pending == [] then [] else pending[1..]
  }

  // ---------------------------------------------------------------------
  // The class

  class Game {
    const chapters: seq<Chapter>
    const font: Measure
    const banner: Banner
    var isRunning: bool
    var scenes: seq<Scene>
    var currentSceneID: int
    var currentChapterID: int
    /** The chapters whose theme `playChapterMusic` (re)started, oldest first. */
    var musicLog: seq<nat>
    var pending: seq<seq<Event>>
    var presented: seq<Frame>

    /** The navigation fields. */
    function State(): Nav
      reads this
    {
      Nav(isRunning, scenes, currentSceneID, currentChapterID, musicLog)
    }

    /** `Game()` followed by `loadChapters()`: running, at scene 0 of chapter 0. */
    constructor (content: seq<Chapter>, texts: Banner, measure: Measure, input: seq<seq<Event>>)
      requires |content| > 0
      ensures chapters == content && banner == texts && font == measure
      ensures State() == Nav(true, content[0].scenes, 0, 0, [])
      ensures pending == input && presented == []
    {
      chapters := content;
      font := measure;
      banner := texts;
      isRunning := true;
      currentSceneID := 0;
      currentChapterID := 0;
      musicLog := [];
      pending := input;
      presented := [];
      scenes := content[0].scenes;
    }

    /** One `while (SDL_PollEvent(&event))` drain: the next batch of events. */
    method PollBatch() returns (batch: seq<Event>)
      modifies this
      ensures batch == NextBatch(old(pending)) && pending == Later(old(pending))
      ensures State() == old(State()) && presented == old(presented)
    {
      if pending == [] {
        batch := [];
      } else {
        batch := pending[0];
        pending := pending[1..];
      }
    }

    /** `playChapterMusic`: restart the theme of the current chapter. */
    method PlayChapterMusic()
      modifies this
      requires 0 <= currentChapterID < |chapters|
      ensures State() == old(State()).(music := old(musicLog) + [old(currentChapterID)])
      ensures pending == old(pending) && presented == old(presented)
    {
      musicLog := musicLog + [currentChapterID];
    }

    /** `handleInput`: key 1/2 follow the current scene's first/second choice, after a black frame. */
    method HandleInput()
      modifies this
      requires InputSafe(State(), NextBatch(pending))
      ensures State() == OnBatch(old(State()), NextBatch(old(pending)))
      ensures pending == Later(old(pending))
      ensures presented == old(presented) + Repeat(BlackFrame, MoveCount(old(State()), NextBatch(old(pending))))
    {
      ghost var s0 := State();
      ghost var f0 := presented;
      var batch := PollBatch();
      ghost var moved := 0;
      for i := 0 to |batch|
        invariant InputSafe(State(), batch[i..])
        invariant OnBatch(State(), batch[i..]) == OnBatch(s0, batch)
        invariant moved + MoveCount(State(), batch[i..]) == MoveCount(s0, batch)
        invariant presented == f0 + Repeat(BlackFrame, moved)
        invariant pending == Later(old(pending))
      {
        InputStep(State(), batch, i);
        ghost var moves := Moves(State(), batch[i]);
        HandleEvent(batch[i]);
        if moves {
          moved := moved + 1;
        }
      }
      assert batch[|batch|..] == [];
    }

    /** The body of the drain loop of `handleInput`, for one event. */
    method HandleEvent(e: Event)
      modifies this
      requires EventSafe(State(), e)
      ensures State() == OnEvent(old(State()), e)
      ensures presented == old(presented) + (if Moves(old(State()), e) then [BlackFrame] else [])
      ensures pending == old(pending)
    {
      if e == Quit {
        isRunning := false;
      } else if e.KeyDown? {
        if e.key == Key1 && |scenes[currentSceneID].choices| > 0 {
          presented := presented + [BlackFrame];
          currentSceneID := scenes[currentSceneID].choices[0].nextSceneID;
        } else if e.key == Key2 && |scenes[currentSceneID].choices| > 1 {
          presented := presented + [BlackFrame];
          currentSceneID := scenes[currentSceneID].choices[1].nextSceneID;
        }
      }
    }

    /** `renderTextInBox`: the text wrapped inside a 10-pixel margin. */
    method RenderTextInBox(text: string, x: int, y: int, width: int, height: int) returns (lines: seq<Placed>)
      ensures lines == Layout(text, x + 10, y + 10, width - 20, font)
      ensures AllAcceptable(lines, width - 20, font) && LineWords(lines) == Words(text)
    {
      lines := RenderText(text, x + 10, y + 10, width - 20, font);
    }

    /** `renderWelcomeScreen`: presents one welcome frame. */
    method RenderWelcomeScreen()
      modifies this
      ensures presented == old(presented) + [WelcomeFrame(chapters, banner, font)]
      ensures State() == old(State()) && pending == old(pending)
    {
      var headings := RenderHeadings();
      var entries := RenderEntries();
      var closing := RenderClosing();
      presented := presented + [Frame(Black, "", headings + entries + closing)];
    }

    /** The three headings of the welcome screen. */
    method RenderHeadings() returns (blocks: seq<seq<Placed>>)
      ensures blocks == Headings(banner, font)
    {
      var festive := RenderText(banner.festive, 200, 50, 400, font);
      var tagline := RenderText(banner.tagline, 100, 100, 600, font);
      var prompt := RenderText(banner.prompt, 100, 150, 600, font);
      blocks := [festive, tagline, prompt];
    }

    /** The `for` loop over the chapters: one numbered title each. */
    method RenderEntries() returns (blocks: seq<seq<Placed>>)
      ensures blocks == EntryBlocks(chapters, |chapters|, font)
    {
      blocks := [];
      for i := 0 to |chapters|
        invariant blocks == EntryBlocks(chapters, i, font)
      {
        var lines := RenderText(NatToString(i + 1) + ". " + chapters[i].title, 100, 200 + i * 40, 600, font);
        blocks := blocks + [lines];
      }
    }

    /** The instructions below the entries and the closing line. */
    method RenderClosing() returns (blocks: seq<seq<Placed>>)
      ensures blocks == Closing(banner, |chapters|, font)
    {
      var instructions := RenderText(banner.instructions, 100, 200 + |chapters| * 40 + 20, 600, font);
      var signature := RenderText(banner.signature, 300, 400, 200, font);
      blocks := [instructions, signature];
    }

    /** The inner drain loop of the menu over one batch. */
    method MenuHandleBatch(batch: seq<Event>) returns (selecting: bool)
      modifies this
      ensures MenuState(State(), selecting) == MenuBatch(chapters, MenuState(old(State()), true), batch)
      ensures pending == old(pending) && presented == old(presented)
    {
      ghost var m0 := MenuState(State(), true);
      selecting := true;
      for i := 0 to |batch|
        invariant MenuState(State(), selecting) == MenuBatch(chapters, m0, batch[..i])
        invariant pending == old(pending) && presented == old(presented)
      {
        var e := batch[i];
        assert batch[..i + 1][..i] == batch[..i];
        if e == Quit {
          isRunning := false;
          selecting := false;
        } else if e.KeyDown? {
          var selectedChapter := -1;
          if e.key == Key1 && |chapters| > 0 {
            selectedChapter := 0;
          } else if e.key == Key2 && |chapters| > 1 {
            selectedChapter := 1;
          }
          if selectedChapter != -1 {
            currentChapterID := selectedChapter;
            scenes := chapters[currentChapterID].scenes;
            PlayChapterMusic();
            selecting := false;
          }
        }
      }
      assert batch[..|batch|] == batch;
    }

    /** `displayChapterSelectionMenu`: batches and welcome screens until a selection or a quit. */
    method DisplayChapterSelectionMenu()
      modifies this
      ensures var t := MenuSpec(chapters, banner, font, old(State()), old(pending));
              State() == t.nav && pending == t.pending && presented == old(presented) + t.frames
    {
      ghost var p0 := pending;
      ghost var f0 := presented;
      ghost var whole := MenuLoop(chapters, MenuState(State(), true), p0);
      var selecting := true;
      ghost var k: nat := 0;
      while selecting && pending != []
        invariant k <= |p0| && pending == p0[k..]
        invariant whole.0 == MenuLoop(chapters, MenuState(State(), selecting), pending).0
        invariant whole.1 == MenuLoop(chapters, MenuState(State(), selecting), pending).1 + k
        invariant presented == f0 + Repeat(WelcomeFrame(chapters, banner, font), k)
        decreases |pending|
      {
        MenuLoopStep(chapters, MenuState(State(), selecting), pending);
        var batch := PollBatch();
        selecting := MenuHandleBatch(batch);
        ghost var before := presented;
        RenderWelcomeScreen();
        RepeatSnoc(f0, before, presented, WelcomeFrame(chapters, banner, font), k);
        k := k + 1;
      }
      assert MenuLoop(chapters, MenuState(State(), selecting), pending) == (MenuState(State(), selecting), 0);
    }

    /** `render`: one tick. */
    method Render()
      modifies this
      requires RenderSafe(State())
      ensures var t := RenderSpec(chapters, banner, font, old(State()), old(pending));
              State() == t.nav && pending == t.pending && presented == old(presented) + t.frames
    {
      if currentChapterID == -1 {
        RenderWelcomeScreen();
      } else if DrawsScene(currentSceneID, |scenes|) {
        RenderScene();
      } else {
        ReturnToMenu();
      }
    }

    /** The drawing branch of `render`: colour, image and the scene's text box. */
    method RenderScene()
      modifies this
      requires 0 <= currentSceneID < |scenes|
      ensures presented == old(presented) + [SceneFrame(old(scenes[currentSceneID]), font)]
      ensures State() == old(State()) && pending == old(pending)
    {
      var scene := scenes[currentSceneID];
      var textBox := ComposeTextBox(scene);
      var lines := RenderTextInBox(textBox, 50, 400, 700, 180);
      presented := presented + [Frame(scene.bgColor, scene.imagePath, [lines])];
    }

    /** The last branch of `render`: back to the menu from position 0. */
    method ReturnToMenu()
      modifies this
      ensures var t := MenuSpec(chapters, banner, font, old(State()).(chapterID := -1, sceneID := 0), old(pending));
              State() == t.nav && pending == t.pending && presented == old(presented) + t.frames
    {
      currentChapterID := -1;
      currentSceneID := 0;
      DisplayChapterSelectionMenu();
    }

    /**
     * `run`: input, then a tick, while the game is running and input is
     * left. With playable chapters no step reads outside `scenes`.
     */
    method Run()
      modifies this
      requires Playable(chapters) && Sound(State())
      ensures Sound(State()) && (!isRunning || pending == [])
    {
      while isRunning && pending != []
        invariant Sound(State())
        decreases |pending|
      {
        InputKeepsSound(State(), NextBatch(pending));
        HandleInput();
        RenderKeepsSound(chapters, banner, font, State(), pending);
        Render();
      }
    }

    /** `startChapter`. */
    method StartChapter(chapterIndex: int)
      modifies this
      requires 0 <= chapterIndex < |chapters|
      ensures State() == StartChapterSpec(chapters, old(State()), chapterIndex)
      ensures pending == old(pending) && presented == old(presented)
    {
      currentChapterID := chapterIndex;
      scenes := chapters[currentChapterID].scenes;
      currentSceneID := 0;
      PlayChapterMusic();
    }
  }
}
