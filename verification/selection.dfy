/** The character selection screen: the selection vector, the card toggle, the start button
    and the music button (modules/CharacterSelectionScreen.tsx). */
module Selection {
  import opened Options

  /** `selection.filter(s => s).length`: the number of true entries. */
  function SelectedCount(selection: seq<bool>): (count: nat)
    ensures count <= |selection|
    ensures count == multiset(selection)[true]
  {
    if |selection| == 0 then 0
    else
      assert selection == [selection[0]] + selection[1..];
      (if selection[0] then 1 else 0) + SelectedCount(selection[1..])
  }

  /** The card click handler: a copy of the selection with entry `i` negated. Past the end of a
      shorter (restored) vector, JavaScript fills the gap with holes, which read as false, and
      `!undefined` makes entry `i` true. */
  function Toggle(selection: seq<bool>, i: nat): (r: seq<bool>)
    ensures i < |selection| ==> |r| == |selection|
    ensures i >= |selection| ==> |r| == i + 1 && r[i]
    ensures i < |r| && r[i] == (i >= |selection| || !selection[i])
    ensures forall j :: 0 <= j < |r| && j != i ==> r[j] == (j < |selection| && selection[j])
  {
    if i < |selection| then selection[i := !selection[i]]
    else selection + seq(i - |selection|, _ => false) + [true]
  }

  /** Clicking the same card twice restores the selection. */
  lemma ToggleTwice(selection: seq<bool>, i: nat)
    requires i < |selection|
    ensures Toggle(Toggle(selection, i), i) == selection
  {
  }

  /** Each click on a card changes the count by exactly one: down when it puts a chosen card
      back, up otherwise, a click past the end of a shorter vector included. */
  lemma ToggleCount(selection: seq<bool>, i: nat)
    ensures SelectedCount(Toggle(selection, i)) ==
      SelectedCount(selection) + (if i < |selection| && selection[i] then -1 else 1)
  {
    var t := Toggle(selection, i);
    assert SelectedCount(t) == multiset(t)[true];
    if i < |selection| {
      assert t == selection[i := !selection[i]];
      FlipCount(selection, i);
    } else {
      assert t == selection + seq(i - |selection|, _ => false) + [true];
      PastEndCount(selection, i - |selection|);
    }
  }

  lemma FlipCount(selection: seq<bool>, i: nat)
    requires i < |selection|
    ensures multiset(selection[i := !selection[i]])[true] == multiset(selection)[true] + (if selection[i] then -1 else 1)
  {
    assert multiset(selection[i := !selection[i]]) ==
      multiset(selection) - multiset{selection[i]} + multiset{!selection[i]};
  }

  lemma PastEndCount(selection: seq<bool>, k: nat)
    ensures multiset(selection + seq(k, _ => false) + [true])[true] == multiset(selection)[true] + 1
  {
    var gap := seq(k, _ => false);
    assert true !in gap;
    assert multiset(gap)[true] == 0;
    assert multiset(selection + gap + [true]) == multiset(selection) + multiset(gap) + multiset{true};
  }

  /** The start button is disabled until the snippets are loaded and at least three characters
      are chosen. */
  predicate StartDisabled(isReady: bool, selection: seq<bool>) {
    !isReady || SelectedCount(selection) < 3
  }

  /** A click on the start button: `onStart` receives exactly the current selection, and a
      disabled button does nothing. */
  function StartClick(isReady: bool, selection: seq<bool>): (started: Option<seq<bool>>)
    ensures started.Some? <==> isReady && SelectedCount(selection) >= 3
    ensures started.Some? ==> started.value == selection
  {
    if StartDisabled(isReady, selection) then None else Some(selection)
  }

  /** With no card chosen the start button is disabled, loaded or not. */
  lemma NothingChosenIsDisabled(isReady: bool, n: nat)
    ensures StartDisabled(isReady, seq(n, _ => false))
  {
    var s := seq(n, _ => false);
    assert true !in s;
  }

  datatype ButtonText = ChooseAtLeastThree | LetsStart | PleaseWait {
    function Text(): string {
      match this
      case ChooseAtLeastThree => "Válasszatok ki legalább három karaktert"
      case LetsStart => "Kezdjük is el akkor!"
      case PleaseWait => "Még várjunk egy picit, töltődnek a dolgok a háttérben..."
    }
  }

  /** The start button's label: too few characters outweighs readiness. */
  function StartButtonText(isReady: bool, selection: seq<bool>): (t: ButtonText)
    ensures SelectedCount(selection) < 3 ==> t == ChooseAtLeastThree
    ensures SelectedCount(selection) >= 3 && isReady ==> t == LetsStart
    ensures SelectedCount(selection) >= 3 && !isReady ==> t == PleaseWait
  {
    if SelectedCount(selection) < 3 then ChooseAtLeastThree
    else if isReady then LetsStart
    else PleaseWait
  }

  /** The label announces the start exactly when the button is enabled. */
  lemma StartTextMatchesButton(isReady: bool, selection: seq<bool>)
    ensures StartButtonText(isReady, selection) == LetsStart <==> !StartDisabled(isReady, selection)
  {
  }

  /** The music button hands the setter the negated flag, and its label offers the opposite of
      the current state. */
  function MusicClick(isBackgroundMusicPaused: bool): (paused: bool)
    ensures paused != isBackgroundMusicPaused
  {
    !isBackgroundMusicPaused
  }

  function MusicLabel(isBackgroundMusicPaused: bool): (text: string)
    ensures isBackgroundMusicPaused ==> text == "Zene be"
    ensures !isBackgroundMusicPaused ==> text == "Zene ki"
  {
    if isBackgroundMusicPaused then "Zene be" else "Zene ki"
  }

  /** After a click the label flips to the other one: pressing "Zene ki" pauses the music and
      offers "Zene be". */
  lemma MusicClickFlipsLabel(paused: bool)
    ensures MusicLabel(MusicClick(paused)) != MusicLabel(paused)
    ensures MusicClick(MusicClick(paused)) == paused
    ensures MusicLabel(paused) == "Zene ki" ==> MusicClick(paused)
  {
  }
}
