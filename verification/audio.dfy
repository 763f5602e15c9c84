/** Snippet planning: which audio names the catalogue uses, which of them a stage plays,
    how long a list of snippets lasts, and the name-keyed snippet map built once the
    snippets have loaded (modules/audio.ts). */
module Audio {
  import opened GameLogic

  /** A loaded audio snippet. The media element is abstracted away; the duration is kept in
      whole milliseconds. */
  datatype Snippet = Snippet(name: string, durationMs: nat)

  /** The audio references of one stage: all three openings of the start stage, or the
      stage's own audio files. */
  function StageAudioNames(stage: Stage): seq<string> {
    match stage
    case StartStage(_, few, many, all, _) => [few, many, all]
    case NormalStage(_, _, files, _, _) => files
  }

  /** `getAllAudioNames`: every audio reference of the catalogue, stage by stage, flattened. */
  function AllAudioNames(stages: seq<Stage>): seq<string> {
    if |stages| == 0 then [] else StageAudioNames(stages[0]) + AllAudioNames(stages[1..])
  }

  /** Flattening distributes over concatenation of catalogues. */
  lemma {:induction false} AllAudioNamesAppend(a: seq<Stage>, b: seq<Stage>)
    ensures AllAudioNames(a + b) == AllAudioNames(a) + AllAudioNames(b)
  {
    if |a| > 0 {
      AllAudioNamesAppend(a[1..], b);
      assert (a + b)[1..] == a[1..] + b;
    } else {
      assert a + b == b;
    }
  }

  /** A name is in the flattened list exactly when some stage references it. */
  lemma {:induction false} AllAudioNamesMembership(stages: seq<Stage>, name: string)
    ensures name in AllAudioNames(stages) <==> exists s :: s in stages && name in StageAudioNames(s)
  {
    if |stages| > 0 {
      AllAudioNamesMembership(stages[1..], name);
      assert forall s :: s in stages <==> s == stages[0] || s in stages[1..];
    }
  }

  function StartStageCount(stages: seq<Stage>): nat {
    if |stages| == 0 then 0
    else (if stages[0].StartStage? then 1 else 0) + StartStageCount(stages[1..])
  }

  function AudioFileCount(stages: seq<Stage>): nat {
    if |stages| == 0 then 0
    else (if stages[0].NormalStage? then |stages[0].audioFiles| else 0) + AudioFileCount(stages[1..])
  }

  /** Three names per start stage plus every audio file of the other stages. */
  lemma {:induction false} AllAudioNamesLength(stages: seq<Stage>)
    ensures |AllAudioNames(stages)| == 3 * StartStageCount(stages) + AudioFileCount(stages)
  {
    if |stages| > 0 {
      AllAudioNamesLength(stages[1..]);
    }
  }

  lemma {:induction false} NoStartStageCount(stages: seq<Stage>)
    requires forall i :: 0 <= i < |stages| ==> !stages[i].IsStart()
    ensures StartStageCount(stages) == 0
  {
    if |stages| > 0 {
      assert forall i :: 0 <= i < |stages[1..]| ==> stages[1..][i] == stages[i + 1];
      NoStartStageCount(stages[1..]);
    }
  }

  /** A well-formed catalogue, the shipped one included, references three openings plus the
      audio files of all its other stages. */
  lemma CatalogueAudioNameCount(stages: seq<Stage>)
    requires WellFormedCatalogue(stages)
    ensures |AllAudioNames(stages)| == 3 + AudioFileCount(stages)
  {
    assert forall i :: 0 <= i < |stages[1..]| ==> stages[1..][i] == stages[i + 1];
    NoStartStageCount(stages[1..]);
    AllAudioNamesLength(stages);
  }

  /** `getAudioNamesToPlay`: the start stage plays one opening chosen by the number of selected
      characters; every other stage plays its audio files as they are, whatever the selection. */
  function AudioNamesToPlay(stage: Stage, selected: seq<Character>): (names: seq<string>)
    ensures stage.StartStage? ==> |names| == 1
    ensures stage.StartStage? && |selected| <= 6 ==> names == [stage.few]
    ensures stage.StartStage? && 7 <= |selected| <= 17 ==> names == [stage.many]
    ensures stage.StartStage? && |selected| >= 18 ==> names == [stage.all]
    ensures stage.NormalStage? ==> names == stage.audioFiles
  {
    match stage
    case StartStage(_, few, many, all, _) =>
      [if |selected| <= 6 then few else if |selected| < 18 then many else all]
    case NormalStage(_, _, files, _, _) => files
  }

  /** Every name a catalogue stage plays is one of the catalogue's audio names, so the lookup
      in the snippet map built from all of them is defined. */
  lemma NamesToPlayAreCatalogued(stages: seq<Stage>, stage: Stage, selected: seq<Character>)
    requires stage in stages
    ensures forall n :: n in AudioNamesToPlay(stage, selected) ==> n in AllAudioNames(stages)
  {
    forall n | n in AudioNamesToPlay(stage, selected) ensures n in AllAudioNames(stages) {
      assert n in StageAudioNames(stage);
      AllAudioNamesMembership(stages, n);
    }
  }

  /** `getTotalLength`: the durations summed from the left, as `reduce` does. */
  function TotalLength(snippets: seq<Snippet>): nat {
    if |snippets| == 0 then 0
    else TotalLength(snippets[..|snippets| - 1]) + snippets[|snippets| - 1].durationMs
  }

  /** The total of a concatenation is the sum of the totals. */
  lemma {:induction false} TotalLengthAppend(a: seq<Snippet>, b: seq<Snippet>)
    ensures TotalLength(a + b) == TotalLength(a) + TotalLength(b)
    decreases |b|
  {
    if |b| == 0 {
      assert a + b == a;
    } else {
      TotalLengthAppend(a, b[..|b| - 1]);
      assert (a + b)[..|a + b| - 1] == a + b[..|b| - 1];
    }
  }

  /** The examples of the source's unit tests. */
  lemma TotalLengthExamples()
    ensures TotalLength([]) == 0
    ensures TotalLength([Snippet("test1", 1000), Snippet("test2", 2000), Snippet("test3", 3000)]) == 6000
  {
    var s := [Snippet("test1", 1000), Snippet("test2", 2000), Snippet("test3", 3000)];
    assert s[..2][..1] == [s[0]];
    assert s[..2][..1][..0] == [];
  }

  /** The snippets `loadSnippet` resolves with, in request order: each carries the name it was
      requested under and the duration its metadata reported. */
  function Loaded(names: seq<string>, durations: seq<nat>): (snippets: seq<Snippet>)
    requires |durations| == |names|
    ensures |snippets| == |names|
    ensures forall i :: 0 <= i < |names| ==> snippets[i] == Snippet(names[i], durations[i])
  {
    seq(|names|, i requires 0 <= i < |names| => Snippet(names[i], durations[i]))
  }

  /** The `reduce` of `loadSnippets`: snippets folded into a map from name to snippet, a later
      snippet replacing an earlier one of the same name. */
  function SnippetMap(snippets: seq<Snippet>): map<string, Snippet> {
    if |snippets| == 0 then map[]
    else
      var last := snippets[|snippets| - 1];
      SnippetMap(snippets[..|snippets| - 1])[last.name := last]
  }

  /** The map has one key per distinct name, and each key maps to the last snippet of that
      name. */
  lemma {:induction false} SnippetMapContents(snippets: seq<Snippet>)
    ensures forall n :: n in SnippetMap(snippets) <==> exists i :: 0 <= i < |snippets| && snippets[i].name == n
    ensures forall i :: 0 <= i < |snippets| ==>
      var n := snippets[i].name;
      n in SnippetMap(snippets) &&
      (SnippetMap(snippets)[n] == snippets[i] || exists j :: i < j < |snippets| && snippets[j].name == n)
    ensures forall n :: n in SnippetMap(snippets) ==> SnippetMap(snippets)[n].name == n
  {
    if |snippets| > 0 {
      var init := snippets[..|snippets| - 1];
      SnippetMapContents(init);
      forall i | 0 <= i < |init| ensures init[i] == snippets[i] { }
    }
  }

  /** `loadSnippets`: the keys are exactly the requested names, and when no name is requested
      twice each name maps to its own snippet. */
  function LoadSnippets(names: seq<string>, durations: seq<nat>): (m: map<string, Snippet>)
    requires |durations| == |names|
    ensures m.Keys == set n | n in names
    ensures forall n :: n in m ==> m[n].name == n
  {
    var snippets := Loaded(names, durations);
    SnippetMapContents(snippets);
    assert forall n :: n in names ==> exists i :: 0 <= i < |snippets| && snippets[i].name == n;
    SnippetMap(snippets)
  }

  lemma LoadSnippetsDistinct(names: seq<string>, durations: seq<nat>)
    requires |durations| == |names|
    requires forall i, j :: 0 <= i < j < |names| ==> names[i] != names[j]
    ensures forall i :: 0 <= i < |names| ==> LoadSnippets(names, durations)[names[i]] == Snippet(names[i], durations[i])
  {
    SnippetMapContents(Loaded(names, durations));
  }
}
