/** The session as one state machine driven by what the players and the playback engine do:
    card clicks and the start button on the selection screen, the skip button and settling
    playback runs on the stage screen (modules/Game.tsx, modules/StageScreen.tsx). */
module Controller {
  import opened Options
  import opened GameLogic
  import opened Audio
  import opened Playback
  import opened Selection
  import opened Game
  import opened StageScreen

  /** The first visit: nothing chosen (`characters.map(() => false)`), no session, no stage
      screen yet. */
  const Initial: Session := Session(false, 0, seq(18, _ => false), 0)

  datatype Action =
    | ToggleCard(card: nat)
    | ClickStart(isReady: bool)
    | Skip
    /** A `playAudio` run of some earlier or current stage screen settles. */
    | Settled(run: RunContext, outcome: Outcome)

  /** One step with the guarded settle. Cards and the start button exist only on the selection
      screen, the skip button only on the stage screen. */
  function Apply(s: Session, a: Action): (r: Session)
    ensures !s.started && a.ToggleCard? ==> r == s.(selection := Toggle(s.selection, a.card))
    ensures s.started && (a.ToggleCard? || a.ClickStart?) ==> r == s
    ensures !s.started && a.Skip? ==> r == s
    ensures s.started && a.Skip? ==> r == MoveToNextStage(s, s.stageIndex)
    ensures a.Settled? && a.run != CurrentRun(s) ==> r == s
  {
    match a
    case ToggleCard(i) => if s.started then s else s.(selection := Toggle(s.selection, i))
    case ClickStart(isReady) =>
      if s.started then s
      else (match StartClick(isReady, s.selection)
            case None => s
            case Some(selection) => OnStart(s, selection))
    case Skip => if s.started then MoveToNextStage(s, s.stageIndex) else s
    case Settled(run, outcome) => SettleGuarded(s, run, outcome)
  }

  /** The same step with the settle as written. The two machines part only where a completed
      run settles that is not the current one: its closure still moves the session on. */
  function ApplyAsWritten(s: Session, a: Action): (r: Session)
    ensures r != Apply(s, a) ==> a.Settled? && a.outcome == Completed && (!s.started || a.run != CurrentRun(s))
    ensures a.Settled? && a.outcome == Completed ==> r == MoveToNextStage(s, a.run.stageIndex)
  {
    match a
    case Settled(run, outcome) => SettleAsWritten(s, run, outcome)
    case _ => Apply(s, a)
  }

  function Replay(s: Session, actions: seq<Action>): Session
    decreases |actions|
  {
    if |actions| == 0 then s else Replay(Apply(s, actions[0]), actions[1..])
  }

  function ReplayAsWritten(s: Session, actions: seq<Action>): Session
    decreases |actions|
  {
    if |actions| == 0 then s else ReplayAsWritten(ApplyAsWritten(s, actions[0]), actions[1..])
  }

  lemma InitialValid()
    ensures Valid(Initial) && !Initial.started && SelectedCount(Initial.selection) == 0
  {
    NothingChosenIsDisabled(true, 18);
  }

  /** Every step keeps a running session on an enabled stage. */
  lemma ApplyPreservesValid(s: Session, a: Action)
    requires Valid(s)
    ensures Valid(Apply(s, a))
  {
    match a
    case ToggleCard(_) =>
    case ClickStart(_) =>
    case Skip => if s.started { NextStageValid(s.(generation := s.generation + 1)); }
    case Settled(run, outcome) =>
      if s.started && run == CurrentRun(s) && outcome == Completed {
        NextStageValid(s.(generation := s.generation + 1));
      }
  }

  /** Hence along any sequence of actions. */
  lemma {:induction false} ReplayPreservesValid(s: Session, actions: seq<Action>)
    requires Valid(s)
    ensures Valid(Replay(s, actions))
    decreases |actions|
  {
    if |actions| > 0 {
      ApplyPreservesValid(s, actions[0]);
      ReplayPreservesValid(Apply(s, actions[0]), actions[1..]);
    }
  }

  /** The selection cannot change while a session runs, so neither can the enabled stages. */
  lemma SelectionFixedWhileStarted(s: Session, a: Action)
    requires s.started
    ensures Apply(s, a).selection == s.selection
    ensures ApplyAsWritten(s, a).selection == s.selection
  {
  }

  /** With fewer than three characters chosen the start button does nothing. */
  lemma FewerThanThreeStaysSelecting(s: Session, isReady: bool)
    requires !s.started && SelectedCount(s.selection) < 3
    ensures Apply(s, ClickStart(isReady)) == s
  {
  }

  /** With the snippets loaded and three or more characters chosen, the start button starts a
      session at the first stage with exactly that selection. */
  lemma StartButtonStarts(s: Session)
    requires !s.started && SelectedCount(s.selection) >= 3
    ensures var r := Apply(s, ClickStart(true));
      r.started && r.stageIndex == 0 && r.selection == s.selection && r.generation == s.generation + 1
  {
  }

  /** A skip moves a running session one stage on, or from the last stage back to the
      selection screen, with a fresh abort controller either way. */
  lemma SkipAdvancesOrEnds(s: Session)
    requires Valid(s) && s.started
    ensures var r := Apply(s, Skip);
      && r.generation == s.generation + 1
      && (s.stageIndex + 1 < StageCount(s.selection) ==> r.started && r.stageIndex == s.stageIndex + 1)
      && (s.stageIndex + 1 == StageCount(s.selection) ==> !r.started && r.stageIndex == 0)
  {
  }

  /** Playing out a session: completing every stage's run in turn walks through all the
      enabled stages and ends back on the selection screen. */
  lemma {:induction false} CompletedRunsFinishTheSession(s: Session, k: nat)
    requires Valid(s) && s.started && s.stageIndex + k + 1 == StageCount(s.selection)
    ensures var r := Replay(s, CompleteRuns(s, k + 1));
      !r.started && r.stageIndex == 0 && r.selection == s.selection
    decreases k
  {
    var next := Apply(s, Settled(CurrentRun(s), Completed));
    if k == 0 {
      assert Replay(next, []) == next;
    } else {
      assert next.started && next.stageIndex == s.stageIndex + 1;
      CompletedRunsFinishTheSession(next, k - 1);
      assert CompleteRuns(s, k + 1)[1..] == CompleteRuns(next, k);
    }
  }

  /** `count` completions, each by the run of the stage current at that moment. */
  function CompleteRuns(s: Session, count: nat): (actions: seq<Action>)
    ensures |actions| == count
    decreases count
  {
    if count == 0 then []
    else
      var a := Settled(CurrentRun(s), Completed);
      [a] + CompleteRuns(Apply(s, a), count - 1)
  }

  // ---- A stale run ----

  /** The cards of three villagers chosen on the first visit. */
  const ThreeVillagers: seq<bool> := Toggle(Toggle(Toggle(seq(18, _ => false), 11), 12), 13)

  lemma ThreeVillagersEntries()
    ensures |ThreeVillagers| == 18
    ensures forall i :: 0 <= i < 18 ==> (ThreeVillagers[i] <==> 11 <= i <= 13)
  {
    var s0: seq<bool> := seq(18, _ => false);
    var s1 := Toggle(s0, 11);
    assert |s1| == 18 && forall i :: 0 <= i < 18 ==> (s1[i] <==> i == 11);
    var s2 := Toggle(s1, 12);
    assert |s2| == 18 && forall i :: 0 <= i < 18 ==> (s2[i] <==> 11 <= i <= 12);
  }

  lemma ThreeVillagersCount()
    ensures SelectedCount(ThreeVillagers) == 3
  {
    var s0 := seq(18, _ => false);
    var s1 := Toggle(s0, 11);
    var s2 := Toggle(s1, 12);
    NothingChosenIsDisabled(true, 18);
    assert SelectedCount(s0) == 0;
    ToggleCount(s0, 11);
    ToggleCount(s1, 12);
    ToggleCount(s2, 13);
  }

  /** Cards 11 to 15 are the five villagers. */
  lemma VillagerCards(i: nat)
    requires 11 <= i <= 15
    ensures Characters[i].role == Villager
  {
    if i == 11 {} else if i == 12 {} else if i == 13 {} else if i == 14 {} else {}
  }

  /** A selection whose chosen cards are all villager cards selects villagers only. */
  lemma SelectedVillagers(selection: seq<bool>)
    requires forall i :: 0 <= i < |selection| && selection[i] ==> 11 <= i <= 15
    ensures forall c :: c in SelectedCharacters(selection) ==> c.role == Villager
  {
    forall c | c in SelectedCharacters(selection) ensures c.role == Villager {
      PickMembership(Characters, selection, c);
      var i :| 0 <= i < |Characters| && i < |selection| && selection[i] && Characters[i] == c;
      VillagerCards(i);
    }
  }

  lemma ThreeVillagersStages()
    ensures EnabledStages(Stages, SelectedCharacters(ThreeVillagers)) == [Stages[0], Stages[12]]
    ensures StageCount(ThreeVillagers) == 2
  {
    ThreeVillagersEntries();
    SelectedVillagers(ThreeVillagers);
    VillagersOnlyStages(SelectedCharacters(ThreeVillagers));
  }

  lemma ThreeVillagersFacts()
    ensures SelectedCount(ThreeVillagers) == 3
    ensures StageCount(ThreeVillagers) == 2
  {
    ThreeVillagersCount();
    ThreeVillagersStages();
  }

  /** The opening stage plays one snippet, so its run starts playing at once: an abort that
      comes while that `play()` is awaited reaches no listener, and the run completes. */
  lemma OpeningRunMissesEarlyAbort(selected: seq<Character>)
    ensures |AudioNamesToPlay(Stages[0], selected)| == 1
    ensures BreakMs(Stages[0], BreakBetweenAudioFilesMs) == 5000
    ensures PlayAudio(1, 5000, BeforeListen(0)).outcome == Completed
  {
    PlayAudioOutcome(1, 5000, BeforeListen(0));
  }

  /** The players choose three villagers and start; they skip the opening while its snippet is
      still starting; the opening's run, which never heard the abort, then completes. */
  function StaleRunScenario(): seq<Action> {
    [ ToggleCard(11), ToggleCard(12), ToggleCard(13), ClickStart(true), Skip,
      Settled(RunContext(1, 0), PlayAudio(1, 5000, BeforeListen(0)).outcome) ]
  }

  /** The selection screen part of the scenario: three cards, then the start button. */
  lemma ScenarioStart()
    ensures Apply(Apply(Apply(Apply(Initial, ToggleCard(11)), ToggleCard(12)), ToggleCard(13)), ClickStart(true))
      == Session(true, 0, ThreeVillagers, 1)
  {
    ScenarioCards();
    ThreeVillagersCount();
    StartButtonStarts(Session(false, 0, ThreeVillagers, 0));
  }


  /** The three card clicks on the fresh selection screen choose the three villagers. */
  lemma ScenarioCards()
    ensures Apply(Apply(Apply(Initial, ToggleCard(11)), ToggleCard(12)), ToggleCard(13))
      == Session(false, 0, ThreeVillagers, 0)
  {
    var s1 := Apply(Initial, ToggleCard(11));
    assert s1 == Initial.(selection := Toggle(Initial.selection, 11));
    var s2 := Apply(s1, ToggleCard(12));
    assert s2 == s1.(selection := Toggle(s1.selection, 12));
  }

  /** The skip at the opening moves to the closing stage with a fresh controller. */
  lemma ScenarioSkip()
    ensures Apply(Session(true, 0, ThreeVillagers, 1), Skip) == Session(true, 1, ThreeVillagers, 2)
  {
    ThreeVillagersFacts();
  }

  /** `Replay` and `ReplayAsWritten` over six actions of which only the last may settle a run:
      the same five steps, then each version's own last step. */
  lemma ReplaySix(s: Session, actions: seq<Action>)
    requires |actions| == 6
    requires forall j :: 0 <= j < 5 ==> !actions[j].Settled?
    ensures var s4 := Apply(Apply(Apply(Apply(s, actions[0]), actions[1]), actions[2]), actions[3]);
      var s5 := Apply(s4, actions[4]);
      && Replay(s, actions) == Apply(s5, actions[5])
      && ReplayAsWritten(s, actions) == ApplyAsWritten(s5, actions[5])
  {
    ReplayPrefix(s, actions, 6);
    ReplayAsWrittenPrefix(s, actions, 6);
    PrefixesAgree(s, actions, 5);
    assert actions[6..] == [];
    assert ApplyPrefix(s, actions, 1) == Apply(s, actions[0]);
    assert ApplyPrefix(s, actions, 2) == Apply(ApplyPrefix(s, actions, 1), actions[1]);
    assert ApplyPrefix(s, actions, 3) == Apply(ApplyPrefix(s, actions, 2), actions[2]);
    assert ApplyPrefix(s, actions, 4) == Apply(ApplyPrefix(s, actions, 3), actions[3]);
    assert ApplyPrefix(s, actions, 5) == Apply(ApplyPrefix(s, actions, 4), actions[4]);
  }

  /** The session after the first `k` actions. */
  function ApplyPrefix(s: Session, actions: seq<Action>, k: nat): Session
    requires k <= |actions|
  {
    if k == 0 then s else Apply(ApplyPrefix(s, actions, k - 1), actions[k - 1])
  }

  function ApplyPrefixAsWritten(s: Session, actions: seq<Action>, k: nat): Session
    requires k <= |actions|
  {
    if k == 0 then s else ApplyAsWritten(ApplyPrefixAsWritten(s, actions, k - 1), actions[k - 1])
  }

  lemma {:induction false} ReplayPrefix(s: Session, actions: seq<Action>, k: nat)
    requires k <= |actions|
    ensures Replay(s, actions) == Replay(ApplyPrefix(s, actions, k), actions[k..])
  {
    if k == 0 {
      assert actions[0..] == actions;
    } else {
      ReplayPrefix(s, actions, k - 1);
      assert actions[k - 1..][1..] == actions[k..];
    }
  }

  lemma {:induction false} ReplayAsWrittenPrefix(s: Session, actions: seq<Action>, k: nat)
    requires k <= |actions|
    ensures ReplayAsWritten(s, actions) == ReplayAsWritten(ApplyPrefixAsWritten(s, actions, k), actions[k..])
  {
    if k == 0 {
      assert actions[0..] == actions;
    } else {
      ReplayAsWrittenPrefix(s, actions, k - 1);
      assert actions[k - 1..][1..] == actions[k..];
    }
  }

  /** Before the first settle both versions have taken the same steps. */
  lemma {:induction false} PrefixesAgree(s: Session, actions: seq<Action>, k: nat)
    requires k <= |actions|
    requires forall j :: 0 <= j < k ==> !actions[j].Settled?
    ensures ApplyPrefixAsWritten(s, actions, k) == ApplyPrefix(s, actions, k)
  {
    if k > 0 {
      PrefixesAgree(s, actions, k - 1);
    }
  }

  /** As written, the stale completion advances the session a second time, past the last
      enabled stage: the stage screen then reads a stage that does not exist. */
  lemma StaleRunOverruns()
    ensures var r := ReplayAsWritten(Initial, StaleRunScenario());
      && r.started && r.stageIndex == 2 && StageCount(r.selection) == 2
      && !Valid(r)
      && CurrentStageSnippets(EnabledStages(Stages, SelectedCharacters(r.selection)), r.stageIndex,
                              SelectedCharacters(r.selection), map[]).None?
  {
    ReplaySix(Initial, StaleRunScenario());
    ScenarioStart();
    ScenarioSkip();
    ThreeVillagersFacts();
    OpeningRunMissesEarlyAbort([]);
    var s5 := Session(true, 1, ThreeVillagers, 2);
    assert ApplyAsWritten(s5, StaleRunScenario()[5]) == Session(true, 2, ThreeVillagers, 3);
  }

  /** With the guard the same actions end on the closing stage, the stale result ignored. */
  lemma StaleRunIgnored()
    ensures var r := Replay(Initial, StaleRunScenario());
      r.started && r.stageIndex == 1 && Valid(r)
  {
    ReplaySix(Initial, StaleRunScenario());
    ScenarioStart();
    ScenarioSkip();
    ThreeVillagersFacts();
    var s5 := Session(true, 1, ThreeVillagers, 2);
    assert Apply(s5, StaleRunScenario()[5]) == s5;
  }
}
