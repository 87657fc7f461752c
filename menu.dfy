/**
 * The chapter-selection rule of `displayChapterSelectionMenu`, which
 * src/main.cpp and src/main_broken.cpp share word for word, stated over
 * the navigation fields of `Game`.
 *
 * The menu drains one batch of pending events per turn of its
 * `while (selecting)` loop. A quit event clears `isRunning` and ends the
 * menu; key 1 selects chapter 0 when there is one and key 2 selects
 * chapter 1 when there are two. A selection sets `currentChapterID`, copies
 * that chapter's scenes and restarts its theme. Every event of a batch is
 * handled, even after the one that ended the menu.
 */
module Menu {
  import opened Wrappers
  import opened Story

  /**
   * The fields of `Game` that navigation reads and writes. `music` lists
   * the chapters whose theme `playChapterMusic` (re)started, oldest first.
   */
  datatype Nav = Nav(running: bool, scenes: seq<Scene>, sceneID: int, chapterID: int, music: seq<nat>)

  /** The chapter a key press selects when there are `count` chapters. */
  function Selected(key: Key, count: nat): (r: Option<nat>)
    ensures r.Some? ==> r.value < count && r.value < 2
    ensures r.Some? <==> (key == Key1 && count > 0) || (key == Key2 && count > 1)
    ensures key == Key1 && count > 0 ==> r == Some(0)
    ensures key == Key2 && count > 1 ==> r == Some(1)
  {
    if key == Key1 && count > 0 then Some(0)
    else if key == Key2 && count > 1 then Some(1)
    else None
  }

  /** `currentChapterID = c; scenes = chapters[c].scenes; playChapterMusic();` */
  function Select(chapters: seq<Chapter>, s: Nav, c: nat): Nav
    requires c < |chapters|
  {
    s.(chapterID := c, scenes := chapters[c].scenes, music := s.music + [c])
  }

  /** The navigation fields and the menu's `selecting` flag. */
  datatype MenuState = MenuState(nav: Nav, selecting: bool)

  /** One event of the menu's inner `while (SDL_PollEvent(&event))`. */
  function MenuEvent(chapters: seq<Chapter>, m: MenuState, e: Event): MenuState {
    match e
    case Quit => MenuState(m.nav.(running := false), false)
    case KeyDown(k) =>
      (match Selected(k, |chapters|)
       case Some(c) => MenuState(Select(chapters, m.nav, c), false)
       case None => m)
    case OtherEvent => m
  }

  /** One batch of events, handled first to last. */
  function MenuBatch(chapters: seq<Chapter>, m: MenuState, batch: seq<Event>): MenuState
    decreases |batch|
  {
    if batch == [] then m
    else MenuEvent(chapters, MenuBatch(chapters, m, batch[..|batch| - 1]), batch[|batch| - 1])
  }

  /** The chapter one event selects, if any. */
  function EventSelection(count: nat, e: Event): seq<nat> {
    if e.KeyDown? && Selected(e.key, count).Some? then [Selected(e.key, count).value] else []
  }

  /** The chapters the key presses of `batch` select, in order. */
  function Selections(count: nat, batch: seq<Event>): (r: seq<nat>)
    ensures forall i :: 0 <= i < |r| ==> r[i] < count
    decreases |batch|
  {
    if batch == [] then []
    else Selections(count, batch[..|batch| - 1]) + EventSelection(count, batch[|batch| - 1])
  }

  /** A batch ends the menu when it holds a quit event or a selecting key press. */
  predicate Stops(count: nat, batch: seq<Event>) {
    Quit in batch || Selections(count, batch) != []
  }

  /** The last element of a non-empty selection list. */
  function Last(s: seq<nat>): nat
    requires s != []
  {
    s[|s| - 1]
  }

  /** What one event does to the menu. */
  lemma MenuEventEffect(chapters: seq<Chapter>, m: MenuState, e: Event)
    ensures var r := MenuEvent(chapters, m, e);
            var es := EventSelection(|chapters|, e);
            && r.nav.music == m.nav.music + es
            && r.nav.chapterID == (if es == [] then m.nav.chapterID else es[0])
            && r.nav.scenes == (if es == [] then m.nav.scenes else chapters[es[0]].scenes)
            && r.nav.sceneID == m.nav.sceneID
            && r.nav.running == (m.nav.running && e != Quit)
            && r.selecting == (m.selecting && e != Quit && es == [])
  {
    if EventSelection(|chapters|, e) == [] {
      assert m.nav.music + [] == m.nav.music;
    }
  }

  /**
   * A key press on the menu: key 1 picks chapter 0 when there is one, key 2
   * picks chapter 1 when there are two; either sets the chapter and its
   * scenes, restarts that theme and ends the menu. Any other key, or too
   * few chapters, changes nothing.
   */
  lemma MenuKeyPress(chapters: seq<Chapter>, m: MenuState, k: Key)
    ensures var r := MenuEvent(chapters, m, KeyDown(k));
            && (k == Key1 && |chapters| > 0 ==>
                  r == MenuState(m.nav.(chapterID := 0, scenes := chapters[0].scenes, music := m.nav.music + [0]), false))
            && (k == Key2 && |chapters| > 1 ==>
                  r == MenuState(m.nav.(chapterID := 1, scenes := chapters[1].scenes, music := m.nav.music + [1]), false))
            && (!(k == Key1 && |chapters| > 0) && !(k == Key2 && |chapters| > 1) ==> r == m)
  {
    var r := MenuEvent(chapters, m, KeyDown(k));
    if k == Key1 && |chapters| > 0 {
      assert Selected(k, |chapters|) == Some(0);
    } else if k == Key2 && |chapters| > 1 {
      assert Selected(k, |chapters|) == Some(1);
    } else {
      assert Selected(k, |chapters|) == None;
    }
  }

  /**
   * What a batch does to the menu: the theme is restarted once per
   * selecting key press, in order; the chapter and its scenes are those of
   * the last selection (or unchanged without one); a quit clears
   * `running`; the menu goes on exactly when nothing ended it; and the
   * scene position is never touched.
   */
  lemma {:induction false} MenuBatchEffect(chapters: seq<Chapter>, m: MenuState, batch: seq<Event>)
    ensures BatchEffect(chapters, m, batch, MenuBatch(chapters, m, batch))
    decreases |batch|
  {
    if batch != [] {
      var init := batch[..|batch| - 1];
      var e := batch[|batch| - 1];
      MenuBatchEffect(chapters, m, init);
      MenuEventEffect(chapters, MenuBatch(chapters, m, init), e);
      assert MenuBatch(chapters, m, batch) == MenuEvent(chapters, MenuBatch(chapters, m, init), e);
      BatchEffectSnoc(chapters, m, batch, MenuBatch(chapters, m, init), MenuBatch(chapters, m, batch));
    }
  }

  /** The effect `MenuBatchEffect` states, of a batch ending the menu in state `r`. */
  predicate BatchEffect(chapters: seq<Chapter>, m: MenuState, batch: seq<Event>, r: MenuState) {
    var sel := Selections(|chapters|, batch);
    && r.nav.music == m.nav.music + sel
    && r.nav.chapterID == (if sel == [] then m.nav.chapterID else Last(sel))
    && r.nav.scenes == (if sel == [] then m.nav.scenes else chapters[Last(sel)].scenes)
    && r.nav.sceneID == m.nav.sceneID
    && r.nav.running == (m.nav.running && Quit !in batch)
    && r.selecting == (m.selecting && !Stops(|chapters|, batch))
  }

  /** The effect of a batch is that of all but its last event, then of the last event. */
  lemma BatchEffectSnoc(chapters: seq<Chapter>, m: MenuState, batch: seq<Event>, q: MenuState, r: MenuState)
    requires batch != []
    requires BatchEffect(chapters, m, batch[..|batch| - 1], q)
    requires var es := EventSelection(|chapters|, batch[|batch| - 1]);
             && r.nav.music == q.nav.music + es
             && r.nav.chapterID == (if es == [] then q.nav.chapterID else es[0])
             && r.nav.scenes == (if es == [] then q.nav.scenes else chapters[es[0]].scenes)
             && r.nav.sceneID == q.nav.sceneID
             && r.nav.running == (q.nav.running && batch[|batch| - 1] != Quit)
             && r.selecting == (q.selecting && batch[|batch| - 1] != Quit && es == [])
    ensures BatchEffect(chapters, m, batch, r)
  {
    var init := batch[..|batch| - 1];
    var e := batch[|batch| - 1];
    var n := |chapters|;
    var sel0 := Selections(n, init);
    var es := EventSelection(n, e);
    var sel := Selections(n, batch);
    assert sel == sel0 + es;
    assert Quit in batch <==> Quit in init || e == Quit by {
      assert batch == init + [e];
    }
    assert r.nav.music == m.nav.music + sel by {
      assert m.nav.music + sel0 + es == m.nav.music + sel;
    }
    assert && r.nav.chapterID == (if sel == [] then m.nav.chapterID else Last(sel))
           && r.nav.scenes == (if sel == [] then m.nav.scenes else chapters[Last(sel)].scenes) by {
      if es != [] {
        assert Last(sel) == es[0];
      } else {
        assert sel == sel0;
      }
    }
    assert r.nav.running == (m.nav.running && Quit !in batch);
    assert r.selecting == (m.selecting && !Stops(n, batch));
  }

  /**
   * The menu's `while (selecting)` loop over the pending batches: the
   * final state and the number of batches it consumed. The modelled input
   * is finite, so the loop also ends when the input runs out.
   */
  function MenuLoop(chapters: seq<Chapter>, m: MenuState, pending: seq<seq<Event>>): (r: (MenuState, nat))
    ensures r.1 <= |pending|
    decreases |pending|
  {
    if !m.selecting || pending == [] then (m, 0)
    else
      var r := MenuLoop(chapters, MenuBatch(chapters, m, pending[0]), pending[1..]);
      (r.0, r.1 + 1)
  }

  /** The chapters selected by the key presses of all the batches, in order. */
  function AllSelections(count: nat, batches: seq<seq<Event>>): (r: seq<nat>)
    ensures forall i :: 0 <= i < |r| ==> r[i] < count
    decreases |batches|
  {
    if batches == [] then [] else Selections(count, batches[0]) + AllSelections(count, batches[1..])
  }

  /** No batch holds a quit event. */
  predicate NoQuit(batches: seq<seq<Event>>) {
    forall j :: 0 <= j < |batches| ==> Quit !in batches[j]
  }

  /**
   * The shape of a run of the menu loop that consumed `k` batches of
   * `pending` and ends with `selecting`: every batch before the last one
   * consumed left it selecting; it is still selecting exactly when that
   * last batch did not end it, and then the input has run out.
   */
  predicate LoopShape(count: nat, pending: seq<seq<Event>>, selecting: bool, k: nat) {
    && k <= |pending|
    && (pending != [] ==> k > 0)
    && (forall j :: 0 <= j < k - 1 ==> !Stops(count, pending[j]))
    && (selecting <==> k == 0 || !Stops(count, pending[k - 1]))
    && (selecting ==> k == |pending|)
  }

  /** The navigation effect of the consumed batches, one after another. */
  predicate LoopNav(chapters: seq<Chapter>, m: Nav, consumed: seq<seq<Event>>, f: Nav) {
    var sel := AllSelections(|chapters|, consumed);
    && f.sceneID == m.sceneID
    && f.music == m.music + sel
    && f.chapterID == (if sel == [] then m.chapterID else Last(sel))
    && f.scenes == (if sel == [] then m.scenes else chapters[Last(sel)].scenes)
    && f.running == (m.running && NoQuit(consumed))
  }

  /**
   * What a selecting menu does: it ends in state `f` after consuming `k`
   * batches of `pending` as `LoopShape` says, with the effect of those
   * batches.
   */
  predicate LoopEffect(chapters: seq<Chapter>, m: MenuState, pending: seq<seq<Event>>, f: MenuState, k: nat) {
    LoopShape(|chapters|, pending, f.selecting, k) && LoopNav(chapters, m.nav, pending[..k], f.nav)
  }

  /** The menu consumes batches until one ends it or the input runs out. */
  lemma {:induction false} MenuLoopEffect(chapters: seq<Chapter>, m: MenuState, pending: seq<seq<Event>>)
    requires m.selecting
    ensures LoopEffect(chapters, m, pending, MenuLoop(chapters, m, pending).0, MenuLoop(chapters, m, pending).1)
    decreases |pending|
  {
    if pending != [] {
      var m1 := MenuBatch(chapters, m, pending[0]);
      if m1.selecting {
        MenuLoopEffect(chapters, m1, pending[1..]);
        MenuLoopGoesOn(chapters, m, pending);
      } else {
        MenuLoopStops(chapters, m, pending);
      }
    }
  }

  /**
   * The menu consumed the first `k` batches of `pending`: at least one when
   * there was any, none before the last one consumed ended it, and when
   * input is left the last one consumed did end it.
   */
  predicate Consumed(count: nat, pending: seq<seq<Event>>, k: nat) {
    && k <= |pending|
    && (pending != [] ==> k > 0)
    && (forall j :: 0 <= j < k - 1 ==> !Stops(count, pending[j]))
    && (k < |pending| ==> Stops(count, pending[k - 1]))
  }

  /** A selecting menu stops at the first batch with a quit or a selection, or when input runs out. */
  lemma MenuLoopConsumed(chapters: seq<Chapter>, m: MenuState, pending: seq<seq<Event>>)
    requires m.selecting
    ensures Consumed(|chapters|, pending, MenuLoop(chapters, m, pending).1)
  {
    MenuLoopEffect(chapters, m, pending);
  }

  /** The first batch ends the menu. */
  lemma MenuLoopStops(chapters: seq<Chapter>, m: MenuState, pending: seq<seq<Event>>)
    requires m.selecting && pending != []
    requires !MenuBatch(chapters, m, pending[0]).selecting
    ensures LoopEffect(chapters, m, pending, MenuLoop(chapters, m, pending).0, MenuLoop(chapters, m, pending).1)
  {
    var m1 := MenuBatch(chapters, m, pending[0]);
    MenuBatchEffect(chapters, m, pending[0]);
    assert MenuLoop(chapters, m1, pending[1..]) == (m1, 0);
    assert MenuLoop(chapters, m, pending) == (m1, 1);
    ConsumedCons(|chapters|, pending, 0);
    assert AllSelections(|chapters|, pending[1..][..0]) == [];
    assert Selections(|chapters|, pending[0]) + [] == Selections(|chapters|, pending[0]);
  }

  /** The first batch leaves the menu selecting, and the rest of the input does what it does. */
  lemma MenuLoopGoesOn(chapters: seq<Chapter>, m: MenuState, pending: seq<seq<Event>>)
    requires m.selecting && pending != []
    requires MenuBatch(chapters, m, pending[0]).selecting
    requires var m1 := MenuBatch(chapters, m, pending[0]);
             var r := MenuLoop(chapters, m1, pending[1..]);
             LoopEffect(chapters, m1, pending[1..], r.0, r.1)
    ensures LoopEffect(chapters, m, pending, MenuLoop(chapters, m, pending).0, MenuLoop(chapters, m, pending).1)
  {
    var n := |chapters|;
    var m1 := MenuBatch(chapters, m, pending[0]);
    var r := MenuLoop(chapters, m1, pending[1..]);
    var whole := MenuLoop(chapters, m, pending);
    assert whole.0 == r.0 && whole.1 == r.1 + 1;
    assert !Stops(n, pending[0]) && m1.nav == m.nav by {
      MenuBatchEffect(chapters, m, pending[0]);
    }
    assert LoopShape(n, pending, whole.0.selecting, whole.1) by {
      ShapeCons(n, pending, r.0.selecting, r.1);
    }
    assert LoopNav(chapters, m.nav, pending[..whole.1], whole.0.nav) by {
      LoopNavCons(chapters, m.nav, pending[0], pending[1..][..r.1], r.0.nav);
      assert pending[..r.1 + 1] == [pending[0]] + pending[1..][..r.1];
    }
  }

  /** A first batch without selections or quits adds nothing to the effect of the rest. */
  lemma LoopNavCons(chapters: seq<Chapter>, m: Nav, first: seq<Event>, rest: seq<seq<Event>>, f: Nav)
    requires Selections(|chapters|, first) == [] && Quit !in first
    requires LoopNav(chapters, m, rest, f)
    ensures LoopNav(chapters, m, [first] + rest, f)
  {
    var c := [first] + rest;
    assert c[0] == first && c[1..] == rest;
    assert AllSelections(|chapters|, c) == [] + AllSelections(|chapters|, rest);
    assert [] + AllSelections(|chapters|, rest) == AllSelections(|chapters|, rest);
    assert NoQuit(c) <==> NoQuit(rest) by {
      assert forall j :: 0 < j < |c| ==> c[j] == rest[j - 1];
    }
  }

  /** A first batch that does not end the menu extends the run that follows it. */
  lemma ShapeCons(count: nat, pending: seq<seq<Event>>, selecting: bool, k: nat)
    requires pending != [] && !Stops(count, pending[0])
    requires LoopShape(count, pending[1..], selecting, k)
    ensures LoopShape(count, pending, selecting, k + 1)
  {
    forall j | 0 < j < k ensures !Stops(count, pending[j]) {
      assert pending[j] == pending[1..][j - 1];
    }
    if k > 0 {
      assert pending[k] == pending[1..][k - 1];
    }
  }

  /** The first `k + 1` batches are the first batch and then `k` of the rest. */
  lemma ConsumedCons(count: nat, pending: seq<seq<Event>>, k: nat)
    requires k < |pending|
    ensures AllSelections(count, pending[..k + 1]) == Selections(count, pending[0]) + AllSelections(count, pending[1..][..k])
    ensures NoQuit(pending[..k + 1]) <==> Quit !in pending[0] && NoQuit(pending[1..][..k])
  {
    var c := pending[..k + 1];
    assert c[0] == pending[0] && c[1..] == pending[1..][..k];
    assert forall j :: 0 < j < |c| ==> c[j] == c[1..][j - 1];
  }
}
