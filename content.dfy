/**
 * The two chapters `loadChapters` builds in src/main.cpp, reduced to what
 * navigation depends on: each scene's id and the targets of its choices.
 * Dialogue, choice texts, colours and image paths are left as empty values.
 *
 * `handleInput` uses a target as a position in `scenes`, never as an id,
 * so a chapter is only safe to play when every id is its own position and
 * every target is a position of the chapter.
 */
module Content {
  import opened Story
  import opened Menu
  import opened Navigation

  /** A scene as navigation sees it. */
  datatype Node = Node(id: int, targets: seq<int>)

  /** The targets of a scene's choices, in order. */
  function Targets(cs: seq<Choice>): (r: seq<int>)
    ensures |r| == |cs| && forall j :: 0 <= j < |cs| ==> r[j] == cs[j].nextSceneID
  {
    seq(|cs|, j requires 0 <= j < |cs| => cs[j].nextSceneID)
  }

  /** The navigation graph of a chapter's scenes. */
  function Abstract(scenes: seq<Scene>): (g: seq<Node>)
    ensures |g| == |scenes|
    ensures forall i :: 0 <= i < |g| ==> g[i] == Node(scenes[i].id, Targets(scenes[i].choices))
  {
    seq(|scenes|, i requires 0 <= i < |scenes| => Node(scenes[i].id, Targets(scenes[i].choices)))
  }

  /** Every scene's id is its position. */
  predicate IdsArePositions(g: seq<Node>) {
    forall i :: 0 <= i < |g| ==> g[i].id == i
  }

  /** Every target is a position of the chapter. */
  predicate TargetsInRange(g: seq<Node>) {
    forall i, j :: 0 <= i < |g| && 0 <= j < |g[i].targets| ==> 0 <= g[i].targets[j] < |g|
  }

  predicate WellFormed(g: seq<Node>) {
    IdsArePositions(g) && TargetsInRange(g)
  }

  /** Some choice of some scene leads to position `t`. */
  predicate HasIncoming(g: seq<Node>, t: int) {
    exists i, j :: 0 <= i < |g| && 0 <= j < |g[i].targets| && g[i].targets[j] == t
  }

  /** A chapter is closed exactly when its graph's targets are in range. */
  lemma ClosedIffTargetsInRange(scenes: seq<Scene>)
    ensures Closed(scenes) <==> TargetsInRange(Abstract(scenes))
  {
    var g := Abstract(scenes);
    if Closed(scenes) {
      forall i, j | 0 <= i < |g| && 0 <= j < |g[i].targets| ensures 0 <= g[i].targets[j] < |g| {
        assert g[i].targets[j] == scenes[i].choices[j].nextSceneID;
      }
    }
    if TargetsInRange(g) {
      forall i, j | 0 <= i < |scenes| && 0 <= j < |scenes[i].choices| ensures 0 <= scenes[i].choices[j].nextSceneID < |scenes| {
        assert g[i].targets[j] == scenes[i].choices[j].nextSceneID;
      }
    }
  }

  /** Choices with empty texts leading to the given targets. */
  function ChoicesTo(ts: seq<int>): (cs: seq<Choice>)
    ensures Targets(cs) == ts
  {
    seq(|ts|, j requires 0 <= j < |ts| => Choice("", ts[j]))
  }

  /** A scene with the node's id and targets and nothing else: black, no text, no image. */
  function SceneOf(n: Node): Scene {
    Scene(n.id, "", ChoicesTo(n.targets), Black, "")
  }

  /** The scenes of a graph. */
  function Skeleton(g: seq<Node>): (scenes: seq<Scene>)
    ensures |scenes| == |g| && forall i :: 0 <= i < |g| ==> scenes[i] == SceneOf(g[i])
  {
    seq(|g|, i requires 0 <= i < |g| => SceneOf(g[i]))
  }

  /** The graph of a skeleton is the graph it was built from. */
  lemma AbstractSkeleton(g: seq<Node>)
    ensures Abstract(Skeleton(g)) == g
  {
    var a := Abstract(Skeleton(g));
    forall i | 0 <= i < |g| ensures a[i] == g[i] {
      assert a[i] == Node(g[i].id, Targets(ChoicesTo(g[i].targets)));
    }
  }

  /**
   * Navigation reads a scene only through its number of choices and their
   * targets: two states that differ only in `scenes`, with the same graph,
   * handle every event alike.
   */
  lemma EventSameGraph(s: Nav, u: Nav, e: Event)
    requires u == s.(scenes := u.scenes) && Abstract(s.scenes) == Abstract(u.scenes)
    ensures EventSafe(s, e) <==> EventSafe(u, e)
    ensures EventSafe(s, e) ==>
              && (Moves(s, e) <==> Moves(u, e))
              && OnEvent(u, e) == OnEvent(s, e).(scenes := u.scenes)
  {
    assert |s.scenes| == |Abstract(s.scenes)|;
    if EventSafe(s, e) && ReadsScene(e) {
      var i := s.sceneID;
      var a := Abstract(s.scenes);
      assert Targets(s.scenes[i].choices) == a[i].targets == Targets(u.scenes[i].choices);
    }
  }

  /** A batch of input does the same on two states with the same graph. */
  lemma {:induction false} BatchSameGraph(s: Nav, u: Nav, batch: seq<Event>)
    requires u == s.(scenes := u.scenes) && Abstract(s.scenes) == Abstract(u.scenes)
    ensures InputSafe(s, batch) <==> InputSafe(u, batch)
    ensures InputSafe(s, batch) ==>
              && OnBatch(u, batch) == OnBatch(s, batch).(scenes := u.scenes)
              && MoveCount(u, batch) == MoveCount(s, batch)
    decreases |batch|
  {
    if batch != [] {
      EventSameGraph(s, u, batch[0]);
      if EventSafe(s, batch[0]) {
        var s1 := OnEvent(s, batch[0]);
        var u1 := OnEvent(u, batch[0]);
        BatchSameGraph(s1, u1, batch[1..]);
      }
    }
  }

  /**
   * A game on the scenes `loadChapters` builds and the same game on their
   * skeleton read their scenes alike: input is safe on one exactly when on
   * the other, moves to the same positions with as many black frames, and
   * `render` decides alike whether to draw a scene.
   */
  lemma SkeletonNavigates(s: Nav, batch: seq<Event>)
    ensures var u := s.(scenes := Skeleton(Abstract(s.scenes)));
            && (InputSafe(s, batch) <==> InputSafe(u, batch))
            && (InputSafe(s, batch) ==>
                  && OnBatch(u, batch) == OnBatch(s, batch).(scenes := u.scenes)
                  && MoveCount(u, batch) == MoveCount(s, batch))
            && (RenderSafe(s) <==> RenderSafe(u))
            && (DrawsScene(s.sceneID, |s.scenes|) <==> DrawsScene(u.sceneID, |u.scenes|))
            && (Closed(s.scenes) <==> Closed(u.scenes))
  {
    var u := s.(scenes := Skeleton(Abstract(s.scenes)));
    AbstractSkeleton(Abstract(s.scenes));
    BatchSameGraph(s, u, batch);
    ClosedIffTargetsInRange(s.scenes);
    ClosedIffTargetsInRange(u.scenes);
  }

  /** Whether chapters are playable depends only on their graphs. */
  lemma PlayableByGraph(a: seq<Chapter>, b: seq<Chapter>)
    requires |a| == |b| && forall c :: 0 <= c < |a| ==> Abstract(a[c].scenes) == Abstract(b[c].scenes)
    ensures Playable(a) <==> Playable(b)
  {
    forall c | 0 <= c < |a| ensures |a[c].scenes| == |b[c].scenes| && (Closed(a[c].scenes) <==> Closed(b[c].scenes)) {
      assert |Abstract(a[c].scenes)| == |Abstract(b[c].scenes)|;
      ClosedIffTargetsInRange(a[c].scenes);
      ClosedIffTargetsInRange(b[c].scenes);
    }
  }

  /** The scene at position `i` holds node `i`, with the id and targets unchanged. */
  predicate NodeAt(n: Node, i: nat, size: nat) {
    n.id == i && forall j :: 0 <= j < |n.targets| ==> 0 <= n.targets[j] < size
  }

  // ---------------------------------------------------------------------
  // The chapters of src/main.cpp

  /** Scene `i` of the chapter "Poulpe" (src/main.cpp:94-127): its id and the targets of its choices. */
  function PoulpeNode(i: nat): Node
    requires i < 34
  {
    match i
    case 0 => Node(0, [1])
    case 1 => Node(1, [2])
    case 2 => Node(2, [3])
    case 3 => Node(3, [4])
    case 4 => Node(4, [7, 5])
    case 5 => Node(5, [7, 6])
    case 6 => Node(6, [7])
    case 7 => Node(7, [8])
    case 8 => Node(8, [9])
    case 9 => Node(9, [10])
    case 10 => Node(10, [11, 14])
    case 11 => Node(11, [12])
    case 12 => Node(12, [13])
    case 13 => Node(13, [16])
    case 14 => Node(14, [15])
    case 15 => Node(15, [18])
    case 16 => Node(16, [17])
    case 17 => Node(17, [19])
    case 18 => Node(18, [20])
    case 19 => Node(19, [21])
    case 20 => Node(20, [23])
    case 21 => Node(21, [22])
    case 22 => Node(22, [25])
    case 23 => Node(23, [24])
    case 24 => Node(24, [26])
    case 25 => Node(25, [26])
    case 26 => Node(26, [27])
    case 27 => Node(27, [28, 29])
    case 28 => Node(28, [30])
    case 29 => Node(29, [28])
    case 30 => Node(30, [31])
    case 31 => Node(31, [32])
    case 32 => Node(32, [33])
    case _ => Node(33, [])
  }

  /** Scene `i` of the chapter "Taupe" (src/main.cpp:134-208). Scene 74's `{{}}` is one value-initialised choice, whose target is 0. */
  function TaupeNode(i: nat): Node
    requires i < 75
  {
    match i
    case 0 => Node(0, [1])
    case 1 => Node(1, [2])
    case 2 => Node(2, [3])
    case 3 => Node(3, [4])
    case 4 => Node(4, [5, 7])
    case 5 => Node(5, [6])
    case 6 => Node(6, [10])
    case 7 => Node(7, [8])
    case 8 => Node(8, [9])
    case 9 => Node(9, [10])
    case 10 => Node(10, [11, 13])
    case 11 => Node(11, [12])
    case 12 => Node(12, [15])
    case 13 => Node(13, [14])
    case 14 => Node(14, [15])
    case 15 => Node(15, [16])
    case 16 => Node(16, [17])
    case 17 => Node(17, [18])
    case 18 => Node(18, [19, 20])
    case 19 => Node(19, [21])
    case 20 => Node(20, [21])
    case 21 => Node(21, [22, 23])
    case 22 => Node(22, [24])
    case 23 => Node(23, [24])
    case 24 => Node(24, [25])
    case 25 => Node(25, [26])
    case 26 => Node(26, [27])
    case 27 => Node(27, [28])
    case 28 => Node(28, [29, 30])
    case 29 => Node(29, [31])
    case 30 => Node(30, [31])
    case 31 => Node(31, [32])
    case 32 => Node(32, [33])
    case 33 => Node(33, [34, 35])
    case 34 => Node(34, [74])
    case 35 => Node(35, [36])
    case 36 => Node(36, [37])
    case 37 => Node(37, [38])
    case 38 => Node(38, [39])
    case 39 => Node(39, [40])
    case 40 => Node(40, [41])
    case 41 => Node(41, [42])
    case 42 => Node(42, [43])
    case 43 => Node(43, [44])
    case 44 => Node(44, [45])
    case 45 => Node(45, [46])
    case 46 => Node(46, [47, 51])
    case 47 => Node(47, [48])
    case 48 => Node(48, [49, 50])
    case 49 => Node(49, [52])
    case 50 => Node(50, [52])
    case 51 => Node(51, [52])
    case 52 => Node(52, [53])
    case 53 => Node(53, [54, 56])
    case 54 => Node(54, [55])
    case 55 => Node(55, [57])
    case 56 => Node(56, [74])
    case 57 => Node(57, [58])
    case 58 => Node(58, [59])
    case 59 => Node(59, [60])
    case 60 => Node(60, [61])
    case 61 => Node(61, [62, 63])
    case 62 => Node(62, [65])
    case 63 => Node(63, [64])
    case 64 => Node(64, [66, 65])
    case 65 => Node(65, [67])
    case 66 => Node(66, [67])
    case 67 => Node(67, [69, 68])
    case 68 => Node(68, [70])
    case 69 => Node(69, [70])
    case 70 => Node(70, [71, 75])
    case 71 => Node(71, [73])
    case 72 => Node(72, [74])
    case 73 => Node(73, [74])
    case _ => Node(74, [0])
  }

  function Poulpe(): (g: seq<Node>)
    ensures |g| == 34 && forall i :: 0 <= i < 34 ==> g[i] == PoulpeNode(i)
  {
    seq(34, i requires 0 <= i < 34 => PoulpeNode(i))
  }

  function Taupe(): (g: seq<Node>)
    ensures |g| == 75 && forall i :: 0 <= i < 75 ==> g[i] == TaupeNode(i)
  {
    seq(75, i requires 0 <= i < 75 => TaupeNode(i))
  }

  lemma PoulpeFirstHalf()
    ensures forall i :: 0 <= i < 17 ==> NodeAt(PoulpeNode(i), i, 34)
  {
  }

  lemma PoulpeSecondHalf()
    ensures forall i :: 17 <= i < 34 ==> NodeAt(PoulpeNode(i), i, 34)
  {
  }

  /** "Poulpe" is well formed: each id is its position and each target a position. */
  lemma PoulpeWellFormed()
    ensures WellFormed(Poulpe())
  {
    PoulpeFirstHalf();
    PoulpeSecondHalf();
    assert forall i :: 0 <= i < 34 ==> NodeAt(Poulpe()[i], i, 34);
  }

  /** In "Taupe" each id is its position. */
  lemma TaupeIdsArePositions()
    ensures IdsArePositions(Taupe())
  {
  }

  /**
   * The second choice of scene 70, "Cyriel", leads to 75, one past the last
   * scene, so "Taupe" is not well formed.
   */
  lemma TaupeDanglingTarget()
    ensures |Taupe()| == 75 && Taupe()[70].targets == [71, 75]
    ensures !TargetsInRange(Taupe()) && !WellFormed(Taupe())
  {
    assert Taupe()[70].targets[1] == 75;
  }

  lemma TaupeNoneTo72Low()
    ensures forall i, j :: 0 <= i < 38 && 0 <= j < |TaupeNode(i).targets| ==> TaupeNode(i).targets[j] != 72
  {
  }

  lemma TaupeNoneTo72High()
    ensures forall i, j :: 38 <= i < 75 && 0 <= j < |TaupeNode(i).targets| ==> TaupeNode(i).targets[j] != 72
  {
  }

  /** No choice of "Taupe" leads to scene 72, the losing ending. */
  lemma Scene72Orphan()
    ensures !HasIncoming(Taupe(), 72)
  {
    TaupeNoneTo72Low();
    TaupeNoneTo72High();
  }

  /**
   * Scene 74's `{{}}` is one choice leading to 0, while "Poulpe" ends in a
   * scene without choices.
   */
  lemma ChapterEnds()
    ensures Taupe()[74] == Node(74, [0]) && Poulpe()[33] == Node(33, [])
  {
  }

  // ---------------------------------------------------------------------
  // What the dangling target does to a game

  /** The chapters of `loadChapters`, both with the theme path it gives them. */
  function SourceChapters(): seq<Chapter> {
    [ Chapter("Poulpe", Skeleton(Poulpe()), "../audio/poulpe_theme.mp3"),
      Chapter("Taupe", Skeleton(Taupe()), "../audio/poulpe_theme.mp3") ]
  }

  /** Scene 70 of "Taupe" with "Cyriel" leading to scene 72, which tells that ending. */
  function CorrectedTaupe(): seq<Node> {
    Taupe()[70 := Node(70, [71, 72])]
  }

  function CorrectedChapters(): seq<Chapter> {
    SourceChapters()[1 := Chapter("Taupe", Skeleton(CorrectedTaupe()), "../audio/poulpe_theme.mp3")]
  }

  /** A game in scene 70 of "Taupe", as `loadChapters` built it. */
  function AtCyriel(): Nav {
    Nav(true, Skeleton(Taupe()), 70, 1, [])
  }

  /**
   * Choosing "Cyriel" moves the position to 75, past the last scene. A
   * further key press in the same batch reads `scenes[75]`, outside the
   * chapter; otherwise the next tick does not draw position 75 but returns
   * to the menu, so the player never sees an ending. The shipped chapters
   * are therefore not playable.
   */
  lemma CyrielLeavesTheChapter()
    ensures InputSafe(AtCyriel(), [KeyDown(Key2)]) && OnBatch(AtCyriel(), [KeyDown(Key2)]).sceneID == 75
    ensures !InputSafe(AtCyriel(), [KeyDown(Key2), KeyDown(Key1)])
    ensures !DrawsScene(75, 75)
    ensures !Playable(SourceChapters())
  {
    KeyPress(AtCyriel(), Key2);
    var s1 := OnEvent(AtCyriel(), KeyDown(Key2));
    assert [KeyDown(Key2), KeyDown(Key1)][1..] == [KeyDown(Key1)];
    assert !EventSafe(s1, KeyDown(Key1));
    ClosedIffTargetsInRange(Skeleton(Taupe()));
    AbstractSkeleton(Taupe());
    TaupeDanglingTarget();
    assert SourceChapters()[1].scenes == Skeleton(Taupe());
  }

  /**
   * Any two chapters with the graphs of "Poulpe" and "Taupe", whatever
   * their prose, colours and images, are not playable: the dangling target
   * belongs to the graph.
   */
  lemma ShippedGraphsNotPlayable(chapters: seq<Chapter>)
    requires |chapters| == 2
    requires Abstract(chapters[0].scenes) == Poulpe() && Abstract(chapters[1].scenes) == Taupe()
    ensures !Playable(chapters)
  {
    CyrielLeavesTheChapter();
    AbstractSkeleton(Poulpe());
    AbstractSkeleton(Taupe());
    PlayableByGraph(chapters, SourceChapters());
  }

  /** The corrected "Taupe" is well formed and its losing ending is reachable. */
  lemma CorrectedTaupeWellFormed()
    ensures WellFormed(CorrectedTaupe()) && HasIncoming(CorrectedTaupe(), 72)
  {
    TaupeLow();
    TaupeMiddle();
    TaupeUpper();
    TaupeHigh();
    var g := CorrectedTaupe();
    assert NodeAt(g[70], 70, 75);
    assert forall i :: 0 <= i < 75 ==> NodeAt(g[i], i, 75);
    assert g[70].targets[1] == 72;
  }

  lemma TaupeLow()
    ensures forall i :: 0 <= i < 38 ==> NodeAt(TaupeNode(i), i, 75)
  {
  }

  lemma TaupeMiddle()
    ensures forall i :: 38 <= i < 54 ==> NodeAt(TaupeNode(i), i, 75)
  {
  }

  lemma TaupeUpper()
    ensures forall i :: 54 <= i < 70 ==> NodeAt(TaupeNode(i), i, 75)
  {
  }

  lemma TaupeHigh()
    ensures forall i :: 71 <= i < 75 ==> NodeAt(TaupeNode(i), i, 75)
  {
  }

  /**
   * With the correction both chapters are playable, and the state
   * `loadChapters` leaves is sound, so `run` never reads outside `scenes`.
   * Choosing "Cyriel" now shows scene 72.
   */
  lemma CorrectedChaptersPlayable()
    ensures Playable(CorrectedChapters())
    ensures Sound(Nav(true, CorrectedChapters()[0].scenes, 0, 0, []))
    ensures var s := Nav(true, Skeleton(CorrectedTaupe()), 70, 1, []);
            OnBatch(s, [KeyDown(Key2)]).sceneID == 72 && DrawsScene(72, 75)
  {
    PoulpeWellFormed();
    CorrectedTaupeWellFormed();
    ClosedIffTargetsInRange(Skeleton(Poulpe()));
    AbstractSkeleton(Poulpe());
    ClosedIffTargetsInRange(Skeleton(CorrectedTaupe()));
    AbstractSkeleton(CorrectedTaupe());
    var cs := CorrectedChapters();
    assert cs[0].scenes == Skeleton(Poulpe()) && cs[1].scenes == Skeleton(CorrectedTaupe());
    KeyPress(Nav(true, Skeleton(CorrectedTaupe()), 70, 1, []), Key2);
  }

  /**
   * At the victory scene 73, a second key 1 in the same batch passes through
   * the never-drawn scene 74 and its value-initialised choice to scene 0.
   */
  lemma SentinelRestarts()
    ensures var s := Nav(true, Skeleton(Taupe()), 73, 1, []);
            InputSafe(s, [KeyDown(Key1), KeyDown(Key1)]) && OnBatch(s, [KeyDown(Key1), KeyDown(Key1)]).sceneID == 0
  {
    var s := Nav(true, Skeleton(Taupe()), 73, 1, []);
    assert Taupe()[73] == Node(73, [74]) && Taupe()[74] == Node(74, [0]);
    assert s.scenes[73].choices[0].nextSceneID == 74;
    assert s.scenes[74].choices[0].nextSceneID == 0;
    KeyPress(s, Key1);
    var s1 := OnEvent(s, KeyDown(Key1));
    KeyPress(s1, Key1);
    assert [KeyDown(Key1), KeyDown(Key1)][1..] == [KeyDown(Key1)];
  }
}
