/** The stage screen: the break chosen for a stage, the character it shows, the skip path
    `moveToNextStage`, the play-then-advance effect, and the two timers (modules/StageScreen.tsx). */
module StageScreen {
  import opened Options
  import opened GameLogic
  import opened Audio
  import opened Playback
  import opened Game

  /** The break handed to `playAudio`: the usual gap unless the stage switches breaks off. */
  function BreakMs(stage: Stage, breakBetweenAudioFilesMs: nat): (ms: nat)
    ensures stage.breaks != Some(false) ==> ms == breakBetweenAudioFilesMs
    ensures stage.breaks == Some(false) ==> ms == 0
  {
    if stage.breaks.GetOr(true) then breakBetweenAudioFilesMs else 0
  }

  function Sum(xs: seq<nat>): nat {
    if |xs| == 0 then 0 else xs[0] + Sum(xs[1..])
  }

  lemma {:induction false} SumRepeat(x: nat, count: nat)
    ensures Sum(Repeat(x, count)) == x * count
  {
    if count > 0 {
      var r := Repeat(x, count);
      assert r[0] == x && r[1..] == Repeat(x, count - 1);
      SumRepeat(x, count - 1);
    }
  }

  /** An uninterrupted run of `n` snippets waits `n - 1` breaks of `ms` in total. */
  lemma UninterruptedBreakTotal(n: nat, ms: nat)
    requires n > 0
    ensures Sum(Waits(PlayAudio(n, ms, NoAbort).trace)) == ms * (n - 1)
  {
    UninterruptedRun(n, ms);
    SumRepeat(ms, n - 1);
  }

  /** The planned length of a stage with audio is what an uninterrupted run of it takes: its
      snippets' durations plus every break `playAudio` waits out with the break this screen
      passes (0 ms breaks when the stage switches them off). */
  lemma PlanMatchesRun(stage: Stage, selected: seq<Character>, snippets: map<string, Snippet>, found: seq<Snippet>)
    requires Lookup(AudioNamesToPlay(stage, selected), snippets) == Some(found)
    requires |found| > 0
    ensures StageLengthMs(stage, selected, snippets).Some?
    ensures StageLengthMs(stage, selected, snippets).value ==
      TotalLength(found) + Sum(Waits(PlayAudio(|found|, BreakMs(stage, BreakBetweenAudioFilesMs), NoAbort).trace))
  {
    StageLengthSplit(stage, selected, snippets, found);
    StageBreakTotal(stage, |found|);
  }

  /** The breaks a stage's uninterrupted run waits: `n - 1` gaps of 5000 ms, or nothing when
      the stage switches breaks off. */
  lemma StageBreakTotal(stage: Stage, n: nat)
    ensures n > 0 ==>
      Sum(Waits(PlayAudio(n, BreakMs(stage, BreakBetweenAudioFilesMs), NoAbort).trace)) ==
        if stage.breaks == Some(false) then 0 else (n - 1) * 5000
  {
    if n > 0 {
      if stage.breaks == Some(false) {
        UninterruptedBreakTotal(n, 0);
      } else {
        UninterruptedBreakTotal(n, 5000);
      }
    }
  }

  /** `currentCharacter`: the first selected character of the stage's role; the start and end
      stages have no role, and nothing matches them. */
  function CurrentCharacter(selected: seq<Character>, stage: Stage): (r: Option<Character>)
    ensures r.Some? <==> stage.IsRole() && HasRole(selected, stage.kind.role)
    ensures r.Some? ==> r.value in selected && r.value.role == stage.kind.role
  {
    if stage.IsRole() && |OfRole(selected, stage.kind.role)| > 0 then Some(OfRole(selected, stage.kind.role)[0])
    else None
  }

  /** The character shown is the first of its role in the selection order. */
  lemma CurrentCharacterIsFirst(selected: seq<Character>, stage: Stage, k: nat)
    requires stage.IsRole() && k < |selected| && selected[k].role == stage.kind.role
    requires forall j :: 0 <= j < k ==> selected[j].role != stage.kind.role
    ensures CurrentCharacter(selected, stage) == Some(selected[k])
  {
    OfRoleHead(selected, stage.kind.role, k);
  }

  /** Every enabled role stage has a character to show. */
  lemma EnabledRoleStageHasCharacter(stages: seq<Stage>, selected: seq<Character>, stage: Stage)
    requires stage in EnabledStages(stages, selected) && stage.IsRole()
    ensures CurrentCharacter(selected, stage).Some?
  {
    EnabledStagesMembership(stages, selected);
  }

  /** The name in the top timer: `start` and `end` as they are, a role by its Hungarian name. */
  function StageLabel(stage: Stage): (text: string)
    ensures stage.IsStart() ==> text == "start"
    ensures stage.IsEnd() ==> text == "end"
    ensures stage.IsRole() ==> text == DisplayableName(stage.kind.role)
  {
    match stage
    case StartStage(_, _, _, _, _) => "start"
    case NormalStage(_, EndKind, _, _, _) => "end"
    case NormalStage(_, RoleKind(t), _, _, _) => DisplayableName(t)
  }

  /** Labels tell stages apart by role: start, end and the roles never share a label. */
  lemma StageLabelsDistinct(a: Stage, b: Stage)
    requires StageLabel(a) == StageLabel(b)
    ensures a.IsStart() <==> b.IsStart()
    ensures a.IsEnd() <==> b.IsEnd()
    ensures a.IsRole() && b.IsRole() ==> a.kind.role == b.kind.role
  {
    if a.IsRole() && b.IsRole() && a.kind.role != b.kind.role {
      DisplayableNameInjective(a.kind.role, b.kind.role);
    }
    if a.IsRole() {
      DisplayableNameNotFixed(a.kind.role);
    }
    if b.IsRole() {
      DisplayableNameNotFixed(b.kind.role);
    }
  }

  lemma DisplayableNameNotFixed(t: CharacterType)
    ensures DisplayableName(t) != "start" && DisplayableName(t) != "end"
  {
  }

  // ---- Moving on ----

  /** `moveToNextStage`: the current abort controller is aborted and replaced by a fresh one,
      and `nextStage` runs once, with the stage index its closure saw. */
  function MoveToNextStage(s: Session, seenIndex: nat): (r: Session)
    ensures r.generation == s.generation + 1
    ensures r.selection == s.selection
    ensures seenIndex + 1 < StageCount(s.selection) ==> r.started == s.started && r.stageIndex == s.stageIndex + 1
    ensures seenIndex + 1 >= StageCount(s.selection) ==> !r.started && r.stageIndex == 0
  {
    NextStage(s.(generation := s.generation + 1), seenIndex)
  }

  /** A skip is `nextStage` plus a fresh controller: apart from the controller it changes the
      session exactly as `nextStage` does. */
  lemma MoveToNextStageIsNextStage(s: Session)
    ensures MoveToNextStage(s, s.stageIndex).(generation := s.generation) == NextStage(s, s.stageIndex)
  {
  }

  /** What a run's `.then` closed over: the abort controller it listens to (by generation) and
      the stage index seen by the `moveToNextStage`/`nextStage` closures of its render. */
  datatype RunContext = RunContext(generation: nat, stageIndex: nat)

  /** The run started for the current stage with the current controller. */
  function CurrentRun(s: Session): RunContext {
    RunContext(s.generation, s.stageIndex)
  }

  /** The effect's `.then` as written: a run that resolves `false` calls the `moveToNextStage`
      it closed over, whichever controller and stage it belonged to; `true` and a run that never
      settles change nothing. */
  function SettleAsWritten(s: Session, ctx: RunContext, outcome: Outcome): (r: Session)
    ensures outcome.Resolved() != Some(false) ==> r == s
    ensures outcome.Resolved() == Some(false) ==> r.generation == s.generation + 1
    ensures outcome.Resolved() == Some(false) && ctx.stageIndex + 1 < StageCount(s.selection) ==>
      r.started == s.started && r.stageIndex == s.stageIndex + 1
    ensures outcome.Resolved() == Some(false) && ctx.stageIndex + 1 >= StageCount(s.selection) ==>
      !r.started && r.stageIndex == 0
  {
    if outcome.Resolved() == Some(false) then MoveToNextStage(s, ctx.stageIndex) else s
  }

  /** The effect as it is evidently meant: only the run of the current stage, listening to the
      current controller, may advance, and only when it completed. */
  function SettleGuarded(s: Session, ctx: RunContext, outcome: Outcome): (r: Session)
    ensures r != s ==> s.started && ctx == CurrentRun(s) && outcome == Completed
    ensures s.started && ctx == CurrentRun(s) && outcome == Completed ==> r == MoveToNextStage(s, s.stageIndex)
  {
    if s.started && ctx == CurrentRun(s) && outcome.Resolved() == Some(false) then MoveToNextStage(s, s.stageIndex)
    else s
  }

  /** For the current run of a running session the two agree: the guard only discards stale
      runs. */
  lemma GuardOnlyDropsStaleRuns(s: Session, outcome: Outcome)
    requires s.started
    ensures SettleGuarded(s, CurrentRun(s), outcome) == SettleAsWritten(s, CurrentRun(s), outcome)
  {
  }

  /** Auto-advance happens only for a completed run: a cancelled or suspended run never moves
      the session, as written or guarded. */
  lemma OnlyCompletedRunsAdvance(s: Session, ctx: RunContext, outcome: Outcome)
    requires outcome != Completed
    ensures SettleAsWritten(s, ctx, outcome) == s
    ensures SettleGuarded(s, ctx, outcome) == s
  {
  }

  // ---- Timers ----

  /** The top timer's elapsed time: time since the stage started, never negative. */
  function TopElapsed(nowMs: int, startMs: int): (e: nat)
    ensures e >= nowMs - startMs
    ensures e == 0 || e == nowMs - startMs
  {
    if nowMs - startMs > 0 then nowMs - startMs else 0
  }

  /** How full a stage's bar in the top timer is: done, the current one (its fraction is
      elapsed over planned, a float, not modelled), or not reached. */
  datatype Progress = Done | Current(elapsedMs: nat) | Pending

  function ProgressOf(i: int, stageIndex: nat, elapsedMs: nat): Progress {
    if i < stageIndex then Done else if i == stageIndex then Current(elapsedMs) else Pending
  }

  /** One bar per enabled stage: stages before the current one are full, stages after it
      empty, and exactly the current one shows the elapsed time. */
  function TopBar(count: nat, stageIndex: nat, elapsedMs: nat): (bar: seq<Progress>)
    ensures |bar| == count
    ensures forall i :: 0 <= i < count ==> (bar[i] == Done <==> i < stageIndex)
    ensures forall i :: 0 <= i < count ==> (bar[i] == Pending <==> i > stageIndex)
    ensures forall i :: 0 <= i < count ==> (bar[i].Current? <==> i == stageIndex)
    ensures stageIndex < count ==> bar[stageIndex] == Current(elapsedMs)
  {
    seq(count, i => ProgressOf(i, stageIndex, elapsedMs))
  }

  /** The bottom timer's elapsed time, capped at the planned length. */
  function BottomElapsed(nowMs: int, startMs: int, totalMs: int): (e: int)
    ensures e <= totalMs && e <= nowMs - startMs
    ensures e == totalMs || e == nowMs - startMs
  {
    if nowMs - startMs < totalMs then nowMs - startMs else totalMs
  }

  /** The remaining time the bottom timer shows: never negative, since the elapsed time is
      capped at the planned length. */
  function Remaining(nowMs: int, startMs: int, totalMs: int): (r: nat)
    ensures nowMs - startMs >= totalMs ==> r == 0
    ensures nowMs - startMs < totalMs ==> r == totalMs - (nowMs - startMs)
  {
    totalMs - BottomElapsed(nowMs, startMs, totalMs)
  }

  /** The countdown never goes up as time passes, and it has reached 0 once the planned length
      has elapsed. */
  lemma RemainingCountsDown(earlier: int, later: int, startMs: int, totalMs: int)
    requires earlier <= later
    ensures Remaining(later, startMs, totalMs) <= Remaining(earlier, startMs, totalMs)
    ensures later - startMs >= totalMs ==> Remaining(later, startMs, totalMs) == 0
  {
  }

  /** The digits `formatTime` shows: whole seconds, tenths and hundredths. */
  datatype Clock = Clock(seconds: nat, tenths: nat, hundredths: nat)

  function ClockMs(c: Clock): nat {
    c.seconds * 1000 + c.tenths * 100 + c.hundredths * 10
  }

  /** `formatTime`: whole seconds and two decimal digits; the milliseconds below ten are
      dropped. */
  function FormatTime(ms: nat): (c: Clock)
    ensures c.tenths < 10 && c.hundredths < 10
    ensures ClockMs(c) == ms - ms % 10
  {
    var c := Clock(ms / 1000, (ms / 100) % 10, (ms / 10) % 10);
    FormatTimeDigits(ms);
    c
  }

  lemma FormatTimeDigits(ms: nat)
    ensures (ms / 1000) * 1000 + ((ms / 100) % 10) * 100 + ((ms / 10) % 10) * 10 == ms - ms % 10
  {
    var a, r1 := ms / 1000, ms % 1000;
    var b, r2 := r1 / 100, r1 % 100;
    var c, r3 := r2 / 10, r2 % 10;
    assert ms == a * 1000 + b * 100 + c * 10 + r3;
    DivModUnique(ms, 100, a * 10 + b, c * 10 + r3);
    DivModUnique(a * 10 + b, 10, a, b);
    DivModUnique(ms, 10, a * 100 + b * 10 + c, r3);
    DivModUnique(a * 100 + b * 10 + c, 10, a * 10 + b, c);
  }

  /** Division and remainder by 10 and by 100 are determined by any split with a remainder
      below the divisor. */
  lemma DivModUnique(m: nat, d: nat, x: nat, r: nat)
    requires d == 10 || d == 100
    requires r < d && m == x * d + r
    ensures m / d == x && m % d == r
  {
    if d == 10 {
      assert m == x * 10 + r;
    } else {
      assert m == x * 100 + r;
    }
  }

  /** Formatting a time already on a 10 ms step gives back its digits: the display loses
      nothing but the last millisecond digit. */
  lemma FormatTimeRoundTrip(c: Clock)
    requires c.tenths < 10 && c.hundredths < 10
    ensures FormatTime(ClockMs(c)) == c
  {
    var ms := ClockMs(c);
    var q := c.seconds * 100 + c.tenths * 10 + c.hundredths;
    assert ms == q * 10;
    DivModUnique(ms, 10, q, 0);
    ClockUnique(FormatTime(ms), c);
  }

  /** Two clocks with in-range digits that show the same time are the same clock. */
  lemma ClockUnique(a: Clock, b: Clock)
    requires a.tenths < 10 && a.hundredths < 10 && b.tenths < 10 && b.hundredths < 10
    requires ClockMs(a) == ClockMs(b)
    ensures a == b
  {
    var ta := a.tenths * 10 + a.hundredths;
    var tb := b.tenths * 10 + b.hundredths;
    assert ClockMs(a) == (a.seconds * 100 + ta) * 10;
    assert ClockMs(b) == (b.seconds * 100 + tb) * 10;
    assert a.seconds * 100 + ta == b.seconds * 100 + tb;
    DivModUnique(a.seconds * 100 + ta, 100, a.seconds, ta);
    DivModUnique(a.seconds * 100 + ta, 100, b.seconds, tb);
    DivModUnique(ta, 10, a.tenths, a.hundredths);
    DivModUnique(ta, 10, b.tenths, b.hundredths);
  }

  /** The bottom timer's display: the remaining time, formatted. */
  function BottomDisplay(nowMs: int, startMs: int, totalMs: int): (c: Clock)
    ensures ClockMs(c) <= Remaining(nowMs, startMs, totalMs) < ClockMs(c) + 10
  {
    FormatTime(Remaining(nowMs, startMs, totalMs))
  }
}
