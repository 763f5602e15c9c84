/** The game shell: the session state with `nextStage` and `onStart`, and the values derived
    from the selection — selected characters, villagers for the opening slideshow, planned
    stage lengths (modules/Game.tsx). */
module Game {
  import opened Options
  import opened Seqs
  import opened GameLogic
  import opened Audio
  import opened Selection

  /** The silent gap between two snippets of a stage. */
  const BreakBetweenAudioFilesMs: nat := 5000

  // ---- Derived from the selection ----

  /** `deck.filter((_, index) => selection[index])`: an index past the end of the selection
      reads `undefined`, which the filter treats as false. */
  function Pick(deck: seq<Character>, selection: seq<bool>): seq<Character> {
    if |deck| == 0 then []
    else
      var chosen := |selection| > 0 && selection[0];
      var rest := Pick(deck[1..], if |selection| > 0 then selection[1..] else []);
      if chosen then [deck[0]] + rest else rest
  }

  /** The characters whose positions are true in the selection, in deck order. */
  function SelectedCharacters(selection: seq<bool>): seq<Character> {
    Pick(Characters, selection)
  }

  lemma {:induction false} PickIsSubseq(deck: seq<Character>, selection: seq<bool>)
    ensures IsSubseq(Pick(deck, selection), deck)
  {
    if |deck| > 0 {
      var tail := if |selection| > 0 then selection[1..] else [];
      PickIsSubseq(deck[1..], tail);
      var rest := Pick(deck[1..], tail);
      assert ([deck[0]] + rest)[1..] == rest;
    }
  }

  /** A character is picked exactly when some position holding it is true in the selection. */
  lemma {:induction false} PickMembership(deck: seq<Character>, selection: seq<bool>, c: Character)
    ensures c in Pick(deck, selection) <==>
      exists i :: 0 <= i < |deck| && i < |selection| && selection[i] && deck[i] == c
  {
    if |deck| > 0 {
      var tail := if |selection| > 0 then selection[1..] else [];
      PickMembership(deck[1..], tail, c);
      if c in Pick(deck, selection) && c !in Pick(deck[1..], tail) {
        assert 0 < |selection| && selection[0] && deck[0] == c;
      }
      if exists i :: 0 <= i < |deck| && i < |selection| && selection[i] && deck[i] == c {
        var i :| 0 <= i < |deck| && i < |selection| && selection[i] && deck[i] == c;
        if i > 0 {
          assert deck[1..][i - 1] == c && tail[i - 1];
        }
      }
    }
  }

  /** A selection vector as long as the deck picks as many characters as it has true entries. */
  lemma {:induction false} PickLength(deck: seq<Character>, selection: seq<bool>)
    requires |selection| == |deck|
    ensures |Pick(deck, selection)| == SelectedCount(selection)
  {
    if |deck| > 0 {
      PickLength(deck[1..], selection[1..]);
    }
  }

  /** The selected characters, in deck order; as many as the selection screen counts. */
  lemma SelectedCharactersFacts(selection: seq<bool>)
    ensures IsSubseq(SelectedCharacters(selection), Characters)
    ensures forall c :: c in SelectedCharacters(selection) <==>
      exists i :: 0 <= i < |Characters| && i < |selection| && selection[i] && Characters[i] == c
    ensures |selection| == |Characters| ==> |SelectedCharacters(selection)| == SelectedCount(selection)
  {
    PickIsSubseq(Characters, selection);
    forall c ensures c in SelectedCharacters(selection) <==>
      exists i :: 0 <= i < |Characters| && i < |selection| && selection[i] && Characters[i] == c
    {
      PickMembership(Characters, selection, c);
    }
    if |selection| == |Characters| {
      PickLength(Characters, selection);
    }
  }

  /** `selected.filter(c => c.type === t)`. */
  function OfRole(selected: seq<Character>, t: CharacterType): (r: seq<Character>)
    ensures forall c :: c in r <==> c in selected && c.role == t
    ensures |r| > 0 <==> HasRole(selected, t)
  {
    if |selected| == 0 then []
    else
      var rest := OfRole(selected[1..], t);
      assert forall c :: c in selected <==> c == selected[0] || c in selected[1..];
      if selected[0].role == t then [selected[0]] + rest else rest
  }

  /** The head of the filtered list is the first character of that role. */
  lemma {:induction false} OfRoleHead(selected: seq<Character>, t: CharacterType, k: nat)
    requires k < |selected| && selected[k].role == t
    requires forall j :: 0 <= j < k ==> selected[j].role != t
    ensures OfRole(selected, t)[0] == selected[k]
  {
    if k > 0 {
      assert selected[0].role != t;
      assert OfRole(selected, t) == OfRole(selected[1..], t);
      OfRoleHead(selected[1..], t, k - 1);
    }
  }

  /** The card of the last villager, shown when nobody chose a villager. */
  const LastVillager: Character := Characters[15]

  /** The villagers the opening slideshow shows: the selected ones, or else the last villager
      card (`characters.filter(c => c.id === 'villager_5')`), so never none. */
  function Villagers(selected: seq<Character>): (r: seq<Character>)
    ensures |r| > 0
    ensures forall c :: c in r ==> c.role == Villager
    ensures HasRole(selected, Villager) ==> forall c :: c in r <==> c in selected && c.role == Villager
    ensures !HasRole(selected, Villager) ==> r == [Character("villager_5", Villager)]
  {
    var chosen := OfRole(selected, Villager);
    if |chosen| > 0 then chosen else [LastVillager]
  }

  // ---- Planned stage lengths ----

  /** `names.map(name => snippets[name])`; `None` when a name has no snippet, where the source
      would fail reading `durationMs` of `undefined`. */
  function Lookup(names: seq<string>, snippets: map<string, Snippet>): (r: Option<seq<Snippet>>)
    ensures r.Some? <==> forall n :: n in names ==> n in snippets
    ensures r.Some? ==> |r.value| == |names| && forall i :: 0 <= i < |names| ==> r.value[i] == snippets[names[i]]
  {
    if |names| == 0 then Some([])
    else if names[0] !in snippets then None
    else
      match Lookup(names[1..], snippets)
      case None =>
        assert forall n :: n in names[1..] ==> n in names;
        None
      case Some(rest) =>
        assert forall n :: n in names ==> n == names[0] || n in names[1..];
        Some([snippets[names[0]]] + rest)
  }

  /** The planned length of a stage: its snippets' durations plus one break between each two
      consecutive snippets, unless the stage switches breaks off (`breaks ?? true`). Nothing
      clamps the break count, so a stage without audio would plan -5000 ms. */
  function StageLengthMs(stage: Stage, selected: seq<Character>, snippets: map<string, Snippet>): (r: Option<int>)
    ensures var names := AudioNamesToPlay(stage, selected);
      r.Some? <==> forall n :: n in names ==> n in snippets
  {
    var names := AudioNamesToPlay(stage, selected);
    match Lookup(names, snippets)
    case None => None
    case Some(found) =>
      var breakCount := if stage.breaks.GetOr(true) then |names| - 1 else 0;
      Some(TotalLength(found) + breakCount * BreakBetweenAudioFilesMs)
  }

  /** The planned length splits into audio and breaks, one 5000 ms break per gap when breaks
      are on (the default) and none when they are off. */
  lemma StageLengthSplit(stage: Stage, selected: seq<Character>, snippets: map<string, Snippet>, found: seq<Snippet>)
    requires Lookup(AudioNamesToPlay(stage, selected), snippets) == Some(found)
    ensures StageLengthMs(stage, selected, snippets).Some?
    ensures stage.breaks != Some(false) ==>
      StageLengthMs(stage, selected, snippets).value == TotalLength(found) + (|found| - 1) * 5000
    ensures stage.breaks == Some(false) ==> StageLengthMs(stage, selected, snippets).value == TotalLength(found)
  {
  }

  /** `allStageLengthsMs`: nothing until some snippet has loaded, then one planned length per
      catalogue stage; `None` where the source would fail on a missing snippet. */
  function AllStageLengthsMs(stages: seq<Stage>, selected: seq<Character>, snippets: map<string, Snippet>): (r: Option<seq<int>>)
    ensures !SnippetsLoaded(snippets) ==> r == Some([])
    ensures SnippetsLoaded(snippets) && r.Some? ==> |r.value| == |stages|
  {
    if !SnippetsLoaded(snippets) then Some([]) else StageLengths(stages, selected, snippets)
  }

  function StageLengths(stages: seq<Stage>, selected: seq<Character>, snippets: map<string, Snippet>): (r: Option<seq<int>>)
    ensures r.Some? ==> |r.value| == |stages|
    ensures r.Some? ==> forall i :: 0 <= i < |stages| ==> StageLengthMs(stages[i], selected, snippets) == Some(r.value[i])
    ensures r.None? ==> exists i :: 0 <= i < |stages| && StageLengthMs(stages[i], selected, snippets).None?
  {
    if |stages| == 0 then Some([])
    else
      match StageLengthMs(stages[0], selected, snippets)
      case None => None
      case Some(first) =>
        match StageLengths(stages[1..], selected, snippets)
        case None => None
        case Some(rest) => Some([first] + rest)
  }

  /** `currentStageSnippets`: the snippets of the current stage's names, `None` when the index
      is past the enabled stages or a snippet is missing. For a missing name the source builds
      an `undefined` entry instead, and the failure comes later, when `playAudio` reads that
      entry's audio element and its promise rejects. */
  function CurrentStageSnippets(enabled: seq<Stage>, stageIndex: nat, selected: seq<Character>,
                                snippets: map<string, Snippet>): (r: Option<seq<Snippet>>)
    ensures r.Some? <==>
      (stageIndex < |enabled| && forall n :: n in AudioNamesToPlay(enabled[stageIndex], selected) ==> n in snippets)
    ensures r.Some? ==>
      && stageIndex < |enabled|
      && var names := AudioNamesToPlay(enabled[stageIndex], selected);
         |r.value| == |names| && forall i :: 0 <= i < |names| ==> r.value[i] == snippets[names[i]]
  {
    if stageIndex < |enabled| then Lookup(AudioNamesToPlay(enabled[stageIndex], selected), snippets) else None
  }

  /** Once every catalogue name has loaded, the current stage of a running session has all
      its snippets, one per name to play. */
  lemma CurrentStageSnippetsLoaded(stages: seq<Stage>, selected: seq<Character>, durations: seq<nat>, stageIndex: nat)
    requires |durations| == |AllAudioNames(stages)|
    requires stageIndex < |EnabledStages(stages, selected)|
    ensures var enabled := EnabledStages(stages, selected);
      var r := CurrentStageSnippets(enabled, stageIndex, selected, LoadSnippets(AllAudioNames(stages), durations));
      r.Some? && |r.value| == |AudioNamesToPlay(enabled[stageIndex], selected)|
  {
    var enabled := EnabledStages(stages, selected);
    EnabledStagesMembership(stages, selected);
    assert enabled[stageIndex] in enabled;
    NamesToPlayAreCatalogued(stages, enabled[stageIndex], selected);
  }

  /** `snippetsLoaded`: the snippet map has at least one key. */
  predicate SnippetsLoaded(snippets: map<string, Snippet>) {
    |snippets.Keys| > 0
  }

  /** Once the snippets of every catalogue name have loaded, every stage has a planned length. */
  lemma LoadedCatalogueHasLengths(stages: seq<Stage>, selected: seq<Character>, durations: seq<nat>)
    requires |durations| == |AllAudioNames(stages)|
    ensures var snippets := LoadSnippets(AllAudioNames(stages), durations);
      && (SnippetsLoaded(snippets) <==> |AllAudioNames(stages)| > 0)
      && AllStageLengthsMs(stages, selected, snippets).Some?
  {
    var names := AllAudioNames(stages);
    var snippets := LoadSnippets(names, durations);
    forall i | 0 <= i < |stages| ensures StageLengthMs(stages[i], selected, snippets).Some? {
      NamesToPlayAreCatalogued(stages, stages[i], selected);
    }
  }

  /** `enabledStages.find(s => s.index === index)`. */
  function FindIndex(enabled: seq<Stage>, j: nat): (r: Option<Stage>)
    ensures r.Some? ==> r.value in enabled && r.value.index == j
    ensures r.None? ==> forall s :: s in enabled ==> s.index != j
  {
    if |enabled| == 0 then None
    else if enabled[0].index == j then Some(enabled[0])
    else FindIndex(enabled[1..], j)
  }

  /** `allStageLengthsMs.filter((_, index) => enabledStages.find(s => s.index === index))`,
      read from position `j` on. */
  function KeepEnabledLengths(all: seq<int>, enabled: seq<Stage>, j: nat): seq<int>
    decreases |all| - j
  {
    if j >= |all| then []
    else (if FindIndex(enabled, j).Some? then [all[j]] else []) + KeepEnabledLengths(all, enabled, j + 1)
  }

  /** `enabledStageLengthsMs`. */
  function EnabledStageLengthsMs(all: seq<int>, enabled: seq<Stage>): seq<int> {
    KeepEnabledLengths(all, enabled, 0)
  }

  /** In a well-formed catalogue, the stage numbered `j` is enabled exactly when the filter
      keeps the stage at position `j`. */
  lemma FindEnabledIndex(stages: seq<Stage>, selected: seq<Character>, j: nat)
    requires WellFormedCatalogue(stages) && j < |stages|
    ensures FindIndex(EnabledStages(stages, selected), j).Some? <==> Keep(stages[j], selected)
  {
    var enabled := EnabledStages(stages, selected);
    EnabledStagesMembership(stages, selected);
    if FindIndex(enabled, j).Some? {
      var s := FindIndex(enabled, j).value;
      var k :| 0 <= k < |stages| && stages[k] == s;
      assert k == j;
    }
  }

  lemma {:induction false} EnabledLengthsFrom(stages: seq<Stage>, selected: seq<Character>, all: seq<int>, j: nat)
    requires WellFormedCatalogue(stages) && |all| == |stages| && j <= |stages|
    ensures var tail := EnabledStages(stages[j..], selected);
      var r := KeepEnabledLengths(all, EnabledStages(stages, selected), j);
      |r| == |tail| && forall k :: 0 <= k < |r| ==> tail[k].index < |all| && r[k] == all[tail[k].index]
    decreases |stages| - j
  {
    if j < |stages| {
      EnabledLengthsFrom(stages, selected, all, j + 1);
      FindEnabledIndex(stages, selected, j);
      assert stages[j..][0] == stages[j] && stages[j..][1..] == stages[j + 1..];
      var tail := EnabledStages(stages[j + 1..], selected);
      var here := EnabledStages(stages[j..], selected);
      var r := KeepEnabledLengths(all, EnabledStages(stages, selected), j);
      if Keep(stages[j], selected) {
        assert here == [stages[j]] + tail;
        forall k | 0 <= k < |r| ensures here[k].index < |all| && r[k] == all[here[k].index] {
          if k > 0 { assert here[k] == tail[k - 1]; }
        }
      }
    } else {
      assert stages[j..] == [];
    }
  }

  /** The enabled stages' lengths line up with the enabled stages: one length per enabled
      stage, the length of the catalogue stage with that index. */
  lemma EnabledLengthsAligned(stages: seq<Stage>, selected: seq<Character>, all: seq<int>)
    requires WellFormedCatalogue(stages) && |all| == |stages|
    ensures var enabled := EnabledStages(stages, selected);
      var r := EnabledStageLengthsMs(all, enabled);
      |r| == |enabled| && forall k :: 0 <= k < |r| ==> enabled[k].index < |all| && r[k] == all[enabled[k].index]
  {
    EnabledLengthsFrom(stages, selected, all, 0);
    assert stages[0..] == stages;
  }

  /** The worked example: a stage of two snippets with breaks (1000 ms and 2000 ms) plans
      8000 ms; a stage of one 500 ms snippet with breaks off plans 500 ms. */
  lemma PlannedLengthExample()
    ensures var snippets := map["s1" := Snippet("s1", 1000), "s2" := Snippet("s2", 2000), "s3" := Snippet("s3", 500)];
      && StageLengthMs(NormalStage(1, RoleKind(Seer), ["s1", "s2"], None, None), [], snippets) == Some(8000)
      && StageLengthMs(NormalStage(2, RoleKind(Robber), ["s3"], None, Some(false)), [], snippets) == Some(500)
  {
    var snippets := map["s1" := Snippet("s1", 1000), "s2" := Snippet("s2", 2000), "s3" := Snippet("s3", 500)];
    var a := [Snippet("s1", 1000), Snippet("s2", 2000)];
    var first := Lookup(["s1", "s2"], snippets);
    assert forall n :: n in ["s1", "s2"] ==> n == "s1" || n == "s2";
    assert first.Some?;
    assert first.value == a;
    assert a[..1] == [a[0]];
    assert TotalLength(a) == 3000;
    var second := Lookup(["s3"], snippets);
    assert forall n :: n in ["s3"] ==> n == "s3";
    assert second.Some? && second.value == [Snippet("s3", 500)];
    assert TotalLength([Snippet("s3", 500)]) == 500 by {
      assert [Snippet("s3", 500)][..0] == [];
    }
  }

  // ---- The session ----

  /** What Game and its stage screen hold: whether a session is running, the current stage,
      the persisted selection, and how many abort controllers have been created so far (the
      one the stage screen holds is the latest, `generation`). */
  datatype Session = Session(started: bool, stageIndex: nat, selection: seq<bool>, generation: nat)

  /** The number of enabled stages for a selection. */
  function StageCount(selection: seq<bool>): nat {
    |EnabledStages(Stages, SelectedCharacters(selection))|
  }

  /** Every selection enables at least the start and the end stage. */
  lemma StageCountAtLeastTwo(selection: seq<bool>)
    ensures StageCount(selection) >= 2
  {
    StagesWellFormed();
    var selected := SelectedCharacters(selection);
    var enabled := EnabledStages(Stages, selected);
    EnabledStagesIsSubseq(Stages, selected);
    EnabledStagesMembership(Stages, selected);
    assert Stages[0] in enabled && Stages[12] in enabled;
    assert Stages[0] != Stages[12];
  }

  /** The session invariant: a running session points at an enabled stage. */
  predicate Valid(s: Session) {
    s.started ==> s.stageIndex < StageCount(s.selection)
  }

  /** `nextStage` as called through a closure that saw stage `seenIndex`: it compares the index
      it saw with the last position, then either increments the current index (a functional
      update) or ends the session at stage 0. */
  function NextStage(s: Session, seenIndex: nat): (r: Session)
    ensures seenIndex + 1 < StageCount(s.selection) ==> r == s.(stageIndex := s.stageIndex + 1)
    ensures seenIndex + 1 >= StageCount(s.selection) ==> r == s.(started := false, stageIndex := 0)
  {
    if seenIndex < StageCount(s.selection) - 1 then s.(stageIndex := s.stageIndex + 1)
    else s.(started := false, stageIndex := 0)
  }

  /** Called with the current index, `nextStage` keeps a running session on an enabled stage,
      and it either moves one stage on or returns to the selection screen. */
  lemma NextStageValid(s: Session)
    requires Valid(s) && s.started
    ensures Valid(NextStage(s, s.stageIndex))
    ensures var r := NextStage(s, s.stageIndex);
      (r.started && r.stageIndex == s.stageIndex + 1) || (!r.started && r.stageIndex == 0)
  {
  }

  /** `onStart`: the selection is stored and the session starts at stage 0; the stage screen
      that mounts creates a fresh abort controller. */
  function OnStart(s: Session, selection: seq<bool>): (r: Session)
    ensures r.started && r.stageIndex == 0 && r.selection == selection
    ensures r.generation == s.generation + 1
    ensures Valid(r)
  {
    StageCountAtLeastTwo(selection);
    Session(true, 0, selection, s.generation + 1)
  }
}
