/** The character and stage catalogues of the game, and the filter that picks the stages
    a given selection of characters needs (modules/game-logic.ts). */
module GameLogic {
  import opened Options
  import opened Seqs

  /** The twelve role types a character can have. */
  datatype CharacterType =
    | Doppelganger | Werewolf | Minion | Mason | Seer | Robber
    | Troublemaker | Drunk | Insomniac | Villager | Hunter | Tanner

  /** A card of the deck: several cards may share a role type (two werewolves, five villagers). */
  datatype Character = Character(id: string, role: CharacterType)

  /** The `if` tag of a role stage: the stage also needs a minion, or an insomniac. */
  datatype Condition = NeedsMinion | NeedsInsomniac

  /** What a non-start stage is about: the closing stage, or one role type. */
  datatype NormalKind = EndKind | RoleKind(role: CharacterType)

  /** A stage of the night script. The start stage carries three alternative openings
      chosen by player count; every other stage carries its ordered audio references.
      `breaks` is optional and counts as true when absent. */
  datatype Stage =
    | StartStage(index: nat, few: string, many: string, all: string, breaks: Option<bool>)
    | NormalStage(index: nat, kind: NormalKind, audioFiles: seq<string>,
                  cond: Option<Condition>, breaks: Option<bool>)
  {
    predicate IsStart() { StartStage? }
    predicate IsEnd() { NormalStage? && kind.EndKind? }
    predicate IsRole() { NormalStage? && kind.RoleKind? }
  }

  /** The deck, in the order the selection vector refers to it. */
  const Characters: seq<Character> := [
    Character("doppelganger", Doppelganger),
    Character("werewolf", Werewolf),
    Character("werewolf_2", Werewolf),
    Character("minion", Minion),
    Character("mason", Mason),
    Character("mason_2", Mason),
    Character("seer", Seer),
    Character("robber", Robber),
    Character("troublemaker", Troublemaker),
    Character("drunk", Drunk),
    Character("insomniac", Insomniac),
    Character("villager", Villager),
    Character("villager_2", Villager),
    Character("villager_3", Villager),
    Character("villager_4", Villager),
    Character("villager_5", Villager),
    Character("hunter", Hunter),
    Character("tanner", Tanner)
  ]

  /** The night script, in playing order. */
  const Stages: seq<Stage> := [
    StartStage(0, "0-start-few", "0-start-many", "0-start-all", None),
    NormalStage(1, RoleKind(Doppelganger), ["1-doppelganger"], None, None),
    NormalStage(2, RoleKind(Doppelganger),
                ["2-doppelganger-1", "2-doppelganger-2", "2-doppelganger-3"], Some(NeedsMinion), None),
    NormalStage(3, RoleKind(Werewolf), ["3-werewolf-1", "3-werewolf-2"], None, None),
    NormalStage(4, RoleKind(Minion), ["4-minion-1", "4-minion-2"], None, None),
    NormalStage(5, RoleKind(Mason), ["5-mason-1", "5-mason-2"], None, None),
    NormalStage(6, RoleKind(Seer), ["6-seer-1", "6-seer-2"], None, None),
    NormalStage(7, RoleKind(Robber), ["7-robber-1", "7-robber-2"], None, None),
    NormalStage(8, RoleKind(Troublemaker), ["8-troublemaker-1", "8-troublemaker-2"], None, None),
    NormalStage(9, RoleKind(Drunk), ["9-drunk-1", "9-drunk-2"], None, None),
    NormalStage(10, RoleKind(Insomniac), ["10-insomniac-1", "10-insomniac-2"], None, None),
    NormalStage(11, RoleKind(Doppelganger),
                ["11-doppelganger-1", "11-doppelganger-2"], Some(NeedsInsomniac), None),
    NormalStage(12, EndKind, ["12-end-1", "12-end-2"], None, Some(false))
  ]

  /** The Hungarian name shown for a role type. */
  function DisplayableName(t: CharacterType): (name: string)
    ensures |name| > 0
    ensures t == Werewolf ==> name == "vérfarkas"
    ensures t == Villager ==> name == "falusi"
    ensures t == Seer ==> name == "látnok"
  {
    match t
    case Doppelganger => "alakváltó"
    case Werewolf => "vérfarkas"
    case Minion => "csatlós"
    case Mason => "szabadkőműves"
    case Seer => "látnok"
    case Robber => "rabló"
    case Troublemaker => "bajkeverő"
    case Drunk => "részeges"
    case Insomniac => "éjjeli bagoly"
    case Villager => "falusi"
    case Hunter => "vadász"
    case Tanner => "tímár"
  }

  /** No two role types share a displayed name. */
  lemma DisplayableNameInjective(a: CharacterType, b: CharacterType)
    requires a != b
    ensures DisplayableName(a) != DisplayableName(b)
  {
    match a
    case Doppelganger => assert DisplayableName(a)[0] == 'a';
    case Werewolf => assert DisplayableName(a)[1] == 'é';
    case Minion => assert DisplayableName(a)[0] == 'c';
    case Mason => assert DisplayableName(a)[1] == 'z';
    case Seer => assert DisplayableName(a)[0] == 'l';
    case Robber => assert DisplayableName(a)[1] == 'a';
    case Troublemaker => assert DisplayableName(a)[1] == 'a' && DisplayableName(a)[0] == 'b';
    case Drunk => assert DisplayableName(a)[1] == 'é';
    case Insomniac => assert DisplayableName(a)[0] == 'é';
    case Villager => assert DisplayableName(a)[0] == 'f';
    case Hunter => assert DisplayableName(a)[0] == 'v';
    case Tanner => assert DisplayableName(a)[0] == 't';
  }

  /** `selected.some(c => c.type === t)`. */
  function HasRole(selected: seq<Character>, t: CharacterType): (b: bool)
    ensures b <==> exists i :: 0 <= i < |selected| && selected[i].role == t
  {
    if |selected| == 0 then false
    else selected[0].role == t || HasRole(selected[1..], t)
  }

  /** The filter predicate of `getEnabledStages`: start and end are always kept; a role stage
      is kept when its role is selected and its `if` condition, if any, is met. */
  predicate Keep(stage: Stage, selected: seq<Character>) {
    match stage
    case StartStage(_, _, _, _, _) => true
    case NormalStage(_, EndKind, _, _, _) => true
    case NormalStage(_, RoleKind(t), _, cond, _) =>
      && HasRole(selected, t)
      && (cond != Some(NeedsMinion) || HasRole(selected, Minion))
      && (cond != Some(NeedsInsomniac) || HasRole(selected, Insomniac))
  }

  /** `stages.filter(stageFilter)`: the stages a selection needs, in catalogue order. */
  function EnabledStages(stages: seq<Stage>, selected: seq<Character>): seq<Stage>
  {
    if |stages| == 0 then []
    else if Keep(stages[0], selected) then [stages[0]] + EnabledStages(stages[1..], selected)
    else EnabledStages(stages[1..], selected)
  }

  /** A stage is enabled exactly when it is in the catalogue and the filter keeps it. */
  lemma {:induction false} EnabledStagesMembership(stages: seq<Stage>, selected: seq<Character>)
    ensures forall s :: s in EnabledStages(stages, selected) <==> s in stages && Keep(s, selected)
    ensures |EnabledStages(stages, selected)| <= |stages|
  {
    if |stages| > 0 {
      EnabledStagesMembership(stages[1..], selected);
      assert forall s :: s in stages <==> s == stages[0] || s in stages[1..];
    }
  }

  /** The filter keeps the catalogue order: its result is a subsequence of its input. */
  lemma {:induction false} EnabledStagesIsSubseq(stages: seq<Stage>, selected: seq<Character>)
    ensures IsSubseq(EnabledStages(stages, selected), stages)
  {
    if |stages| > 0 {
      EnabledStagesIsSubseq(stages[1..], selected);
      var rest := EnabledStages(stages[1..], selected);
      if Keep(stages[0], selected) {
        assert ([stages[0]] + rest)[1..] == rest;
      }
    }
  }

  /** Each stage occurs in the result exactly as often as in the input when the filter keeps
      it, and not at all otherwise; with the subsequence lemma this pins the result down. */
  lemma {:induction false} EnabledStagesMultiplicity(stages: seq<Stage>, selected: seq<Character>, s: Stage)
    ensures multiset(EnabledStages(stages, selected))[s] == if Keep(s, selected) then multiset(stages)[s] else 0
  {
    if |stages| > 0 {
      EnabledStagesMultiplicity(stages[1..], selected, s);
      assert stages == [stages[0]] + stages[1..];
    }
  }

  /** The explicit form of the filter for a role stage of type `t`. */
  lemma RoleStageKeptIff(stages: seq<Stage>, selected: seq<Character>, stage: Stage)
    requires stage in stages && stage.IsRole()
    ensures stage in EnabledStages(stages, selected) <==>
      && (exists c :: c in selected && c.role == stage.kind.role)
      && (stage.cond == Some(NeedsMinion) ==> exists c :: c in selected && c.role == Minion)
      && (stage.cond == Some(NeedsInsomniac) ==> exists c :: c in selected && c.role == Insomniac)
  {
    EnabledStagesMembership(stages, selected);
    forall t: CharacterType ensures HasRole(selected, t) <==> exists c :: c in selected && c.role == t {
      if HasRole(selected, t) {
        var i :| 0 <= i < |selected| && selected[i].role == t;
        assert selected[i] in selected;
      }
    }
  }

  /** The start and end stages survive every selection, the empty one included. */
  lemma StartAndEndAlwaysKept(stages: seq<Stage>, selected: seq<Character>, stage: Stage)
    requires stage in stages && (stage.IsStart() || stage.IsEnd())
    ensures stage in EnabledStages(stages, selected)
  {
    EnabledStagesMembership(stages, selected);
  }

  /** Adding characters to the selection never removes a stage: the stages enabled for the
      smaller selection form a subsequence of those enabled for the larger one. */
  lemma {:induction false} EnabledStagesMonotonic(stages: seq<Stage>, small: seq<Character>, large: seq<Character>)
    requires forall c :: c in small ==> c in large
    ensures IsSubseq(EnabledStages(stages, small), EnabledStages(stages, large))
  {
    if |stages| > 0 {
      EnabledStagesMonotonic(stages[1..], small, large);
      var s0 := stages[0];
      var a := EnabledStages(stages[1..], small);
      var b := EnabledStages(stages[1..], large);
      KeepMonotonic(s0, small, large);
      if Keep(s0, small) {
        assert ([s0] + a)[1..] == a;
        assert ([s0] + b)[1..] == b;
      } else if Keep(s0, large) {
        SubseqOfTail(a, b, s0);
      }
    }
  }

  lemma KeepMonotonic(stage: Stage, small: seq<Character>, large: seq<Character>)
    requires forall c :: c in small ==> c in large
    ensures Keep(stage, small) ==> Keep(stage, large)
  {
    forall t: CharacterType | HasRole(small, t) ensures HasRole(large, t) {
      var i :| 0 <= i < |small| && small[i].role == t;
      assert small[i] in large;
    }
  }

  lemma SubseqOfTail<T>(a: seq<T>, b: seq<T>, x: T)
    requires IsSubseq(a, b)
    ensures IsSubseq(a, [x] + b)
  {
    assert ([x] + b)[1..] == b;
  }

  // ---- The concrete catalogues ----

  /** The catalogue from position `k` on, in a recursive form Dafny can check stage by stage:
      normal stages numbered `k, k+1, …`, each with audio to play, the last one and only the
      last one being the end stage. */
  predicate WellFormedTail(stages: seq<Stage>, k: nat)
    decreases |stages|
  {
    && |stages| >= 1
    && stages[0].NormalStage?
    && stages[0].index == k
    && |stages[0].audioFiles| > 0
    && if |stages| == 1 then stages[0].IsEnd()
       else !stages[0].IsEnd() && WellFormedTail(stages[1..], k + 1)
  }

  /** A catalogue as the stage screen needs it: each stage's `index` is its position, there is
      exactly one start stage, first, and exactly one end stage, last, and every non-start stage
      has audio to play. */
  ghost predicate WellFormedCatalogue(stages: seq<Stage>) {
    && |stages| >= 2
    && (forall i :: 0 <= i < |stages| ==> stages[i].index == i)
    && stages[0].IsStart()
    && stages[|stages| - 1].IsEnd()
    && (forall i :: 0 < i < |stages| ==> !stages[i].IsStart())
    && (forall i :: 0 <= i < |stages| - 1 ==> !stages[i].IsEnd())
    && (forall i :: 0 < i < |stages| ==> |stages[i].audioFiles| > 0)
  }

  lemma {:induction false} WellFormedTailFacts(stages: seq<Stage>, k: nat)
    requires WellFormedTail(stages, k)
    ensures forall i :: 0 <= i < |stages| ==> stages[i].NormalStage? && stages[i].index == k + i
    ensures forall i :: 0 <= i < |stages| ==> |stages[i].audioFiles| > 0
    ensures forall i :: 0 <= i < |stages| ==> (stages[i].IsEnd() <==> i == |stages| - 1)
    decreases |stages|
  {
    if |stages| > 1 {
      WellFormedTailFacts(stages[1..], k + 1);
      forall i | 0 < i < |stages| ensures stages[i] == stages[1..][i - 1] { }
    }
  }

  /** A start stage at position 0 followed by a well-formed tail is a well-formed catalogue. */
  lemma WellFormedFromTail(stages: seq<Stage>)
    requires |stages| >= 2 && stages[0].StartStage? && stages[0].index == 0
    requires WellFormedTail(stages[1..], 1)
    ensures WellFormedCatalogue(stages)
  {
    WellFormedTailFacts(stages[1..], 1);
    forall i | 0 < i < |stages| ensures stages[i] == stages[1..][i - 1] { }
  }

  lemma CatalogueTail()
    ensures WellFormedTail(Stages[1..], 1)
  {
    CatalogueLateTail();
    assert WellFormedTail(Stages[4..], 4);
    assert WellFormedTail(Stages[3..], 3);
    assert WellFormedTail(Stages[2..], 2);
    assert WellFormedTail(Stages[1..], 1);
  }

  lemma CatalogueLateTail()
    ensures WellFormedTail(Stages[5..], 5)
  {
    CatalogueLastStages();
    assert WellFormedTail(Stages[8..], 8);
    assert WellFormedTail(Stages[7..], 7);
    assert WellFormedTail(Stages[6..], 6);
    assert WellFormedTail(Stages[5..], 5);
  }

  lemma CatalogueLastStages()
    ensures WellFormedTail(Stages[9..], 9)
  {
    assert WellFormedTail(Stages[12..], 12);
    assert WellFormedTail(Stages[11..], 11);
    assert WellFormedTail(Stages[10..], 10);
    assert WellFormedTail(Stages[9..], 9);
  }

  lemma StagesWellFormed()
    ensures WellFormedCatalogue(Stages)
    ensures |Stages| == 13 && |Characters| == 18
  {
    CatalogueTail();
    WellFormedFromTail(Stages);
  }

  /** No selection at all still plays the opening and the closing stage, and nothing else. */
  lemma EmptySelectionStages()
    ensures EnabledStages(Stages, []) == [Stages[0], Stages[12]]
  {
    StagesWellFormed();
    EmptySelectionKeepsStartAndEnd(Stages);
  }

  lemma EmptySelectionKeepsStartAndEnd(stages: seq<Stage>)
    requires WellFormedCatalogue(stages)
    ensures EnabledStages(stages, []) == [stages[0], stages[|stages| - 1]]
  {
    OnlyStartAndEnd(stages, []);
  }

  /** A selection for which the filter keeps none of the role stages. */
  predicate KeepsNoRoleStage(stages: seq<Stage>, selected: seq<Character>) {
    forall i :: 0 < i < |stages| - 1 ==> !Keep(stages[i], selected)
  }

  /** A selection that keeps no role stage enables exactly the opening and the closing stage. */
  lemma OnlyStartAndEnd(stages: seq<Stage>, selected: seq<Character>)
    requires WellFormedCatalogue(stages)
    requires KeepsNoRoleStage(stages, selected) || selected == []
    ensures EnabledStages(stages, selected) == [stages[0], stages[|stages| - 1]]
  {
    OnlyStartAndEndFrom(stages, selected, 1);
  }

  lemma {:induction false} OnlyStartAndEndFrom(stages: seq<Stage>, selected: seq<Character>, k: nat)
    requires WellFormedCatalogue(stages) && 1 <= k < |stages|
    requires KeepsNoRoleStage(stages, selected) || selected == []
    ensures EnabledStages(stages[k..], selected) == [stages[|stages| - 1]]
    decreases |stages| - k
  {
    assert stages[k..][0] == stages[k];
    if k < |stages| - 1 {
      OnlyStartAndEndFrom(stages, selected, k + 1);
      assert stages[k..][1..] == stages[k + 1..];
      assert stages[k].IsRole();
    } else {
      assert stages[k..][1..] == [];
    }
  }

  /** No catalogue stage belongs to the villagers: they sleep through the night. */
  lemma NoVillagerStage()
    ensures forall i :: 0 <= i < |Stages| ==> !(Stages[i].IsRole() && Stages[i].kind.role == Villager)
  {
  }

  /** A selection of villagers only plays the opening and the closing stage. */
  lemma VillagersOnlyStages(selected: seq<Character>)
    requires forall c :: c in selected ==> c.role == Villager
    ensures EnabledStages(Stages, selected) == [Stages[0], Stages[12]]
  {
    StagesWellFormed();
    NoVillagerStage();
    assert forall j :: 0 <= j < |selected| ==> selected[j] in selected;
    OnlyStartAndEnd(Stages, selected);
  }

  /** The membership lemma for one given catalogue stage. */
  lemma EnabledIff(stages: seq<Stage>, selected: seq<Character>, stage: Stage)
    requires stage in stages
    ensures stage in EnabledStages(stages, selected) <==> Keep(stage, selected)
  {
    EnabledStagesMembership(stages, selected);
  }

  /** With a single selected character, no role stage of another role type is enabled. */
  lemma LoneCharacterStages(stages: seq<Stage>, c: Character, t: CharacterType)
    requires c.role != t
    ensures forall s :: s in EnabledStages(stages, [c]) ==> !(s.IsRole() && s.kind.role == t)
  {
    EnabledStagesMembership(stages, [c]);
  }

  /** A lone werewolf keeps the werewolf stage and drops the mason stage and the
      minion-conditioned doppelganger stage. */
  lemma LoneWerewolfStages()
    ensures var r := EnabledStages(Stages, [Characters[1]]);
      Stages[3] in r && Stages[5] !in r && Stages[2] !in r
  {
    var w := [Characters[1]];
    var r := EnabledStages(Stages, w);
    assert Stages[3] in r by {
      assert Keep(Stages[3], w);
      EnabledIff(Stages, w, Stages[3]);
    }
    assert Stages[5] !in r by {
      assert !Keep(Stages[5], w);
      EnabledIff(Stages, w, Stages[5]);
    }
    assert Stages[2] !in r by {
      assert !Keep(Stages[2], w);
      EnabledIff(Stages, w, Stages[2]);
    }
  }

  /** A lone villager drops every werewolf stage. */
  lemma LoneVillagerStages()
    ensures forall s :: s in EnabledStages(Stages, [Characters[11]]) ==> !(s.IsRole() && s.kind.role == Werewolf)
  {
    LoneCharacterStages(Stages, Characters[11], Werewolf);
  }
}
