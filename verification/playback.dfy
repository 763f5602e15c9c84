/** `playAudio` as an event-trace machine (modules/audio.ts:51-75).

    The snippets are referred to by position `0 .. n-1`. The media element becomes the events
    `Reset(i)` (position set to 0), `Play(i)` (playback started) and `Pause(i)`; the abort
    listener becomes `Listen(i)` / `Unlisten(i)`, named after the snippet whose listener it is;
    a break is `Wait(ms)`, recorded when it has elapsed. When the controller's abort fires is
    not up to the engine, so it is an input: an `AbortTiming` oracle. */
module Playback {
  import opened Options

  datatype Event =
    | Reset(i: nat)
    | Play(i: nat)
    | Pause(i: nat)
    | Listen(i: nat)
    | Unlisten(i: nat)
    | Wait(ms: nat)

  /** The moment the abort signal fires, if it fires while the run is in progress.
      - `BeforeListen(i)`: while `play()` of snippet `i` is being awaited, before that snippet's
        listener is attached; only the previous snippet's listener (if any) hears it.
      - `DuringPlay(i)`: while snippet `i` is playing, its listener attached.
      - `DuringBreak(i)`: during the break after snippet `i`.
      A timing whose moment the run never reaches means the abort does not fire during it. */
  datatype AbortTiming = NoAbort | BeforeListen(i: nat) | DuringPlay(i: nat) | DuringBreak(i: nat)

  /** How a run ends: its promise resolves `false`, resolves `true`, or never settles (a
      paused snippet never reports its end, so `waitToFinish` never resolves). */
  datatype Outcome = Completed | Cancelled | Suspended {
    /** The value the promise resolves with, if it resolves at all. */
    function Resolved(): Option<bool> {
      match this
      case Completed => Some(false)
      case Cancelled => Some(true)
      case Suspended => None
    }
  }

  datatype Run = Run(trace: seq<Event>, outcome: Outcome)

  /** The listener attached on entry to iteration `i`: the previous snippet's, none on the first. */
  function Previous(i: nat): Option<nat> {
    if i == 0 then None else Some(i - 1)
  }

  /** Lines 55-64 for snippet `i`: reset, start playback, and swap the abort listener. When
      `heard`, the abort fired while `play()` was awaited and the previous listener paused its
      (already finished) snippet. */
  function Attach(i: nat, heard: bool): seq<Event>
    requires heard ==> i > 0
  {
    if i == 0 then [Reset(0), Play(0), Listen(0)]
    else if heard then [Reset(i), Play(i), Pause(i - 1), Unlisten(i - 1), Listen(i)]
    else [Reset(i), Play(i), Unlisten(i - 1), Listen(i)]
  }

  /** Line 69 after snippet `i`; `paused` when the abort fires during the break. */
  function Break(i: nat, paused: bool, breakMs: nat): seq<Event> {
    if paused then [Pause(i), Wait(breakMs)] else [Wait(breakMs)]
  }

  /** The loop of `playAudio` from iteration `i` on. On entry to iteration `i` the listener of
      snippet `i - 1` is still attached (none on the first), and `canceled` is false: a `true`
      set in an earlier iteration would already have ended the run. */
  function PlayFrom(n: nat, breakMs: nat, abort: AbortTiming, i: nat): Run
    decreases n - i
  {
    if i >= n then Run([], Completed)
    else
      // only an already attached listener hears an abort that comes while play() is awaited
      var heard := i > 0 && abort == BeforeListen(i);
      var attached := Attach(i, heard);
      if abort == DuringPlay(i) then Run(attached + [Pause(i)], Suspended)
      else if i == n - 1 then Run(attached, Completed)
      else
        var broke := attached + Break(i, abort == DuringBreak(i), breakMs);
        if heard || abort == DuringBreak(i) then Run(broke, Cancelled)
        else
          var rest := PlayFrom(n, breakMs, abort, i + 1);
          Run(broke + rest.trace, rest.outcome)
  }

  /** `playAudio(snippets, breakMs, signal)` over `n` snippets. */
  function PlayAudio(n: nat, breakMs: nat, abort: AbortTiming): Run {
    PlayFrom(n, breakMs, abort, 0)
  }

  // ---- Reading a trace ----

  /** The snippet positions, in order, whose playback was started. */
  function Plays(t: seq<Event>): seq<nat> {
    if |t| == 0 then [] else (if t[0].Play? then [t[0].i] else []) + Plays(t[1..])
  }

  /** The lengths, in order, of the breaks waited out. */
  function Waits(t: seq<Event>): seq<nat> {
    if |t| == 0 then [] else (if t[0].Wait? then [t[0].ms] else []) + Waits(t[1..])
  }

  function Range(lo: nat, hi: nat): seq<nat>
    requires lo <= hi
  {
    seq(hi - lo, j => lo + j)
  }

  function Repeat(x: nat, count: nat): seq<nat> {
    seq(count, _ => x)
  }

  lemma RangeCons(lo: nat, hi: nat)
    requires lo < hi
    ensures [lo] + Range(lo + 1, hi) == Range(lo, hi)
  {
  }

  lemma RepeatCons(x: nat, count: nat)
    ensures [x] + Repeat(x, count) == Repeat(x, count + 1)
  {
  }

  lemma {:induction false} PlaysAppend(a: seq<Event>, b: seq<Event>)
    ensures Plays(a + b) == Plays(a) + Plays(b)
  {
    if |a| > 0 {
      PlaysAppend(a[1..], b);
      assert (a + b)[1..] == a[1..] + b;
    } else {
      assert a + b == b;
    }
  }

  lemma {:induction false} WaitsAppend(a: seq<Event>, b: seq<Event>)
    ensures Waits(a + b) == Waits(a) + Waits(b)
  {
    if |a| > 0 {
      WaitsAppend(a[1..], b);
      assert (a + b)[1..] == a[1..] + b;
    } else {
      assert a + b == b;
    }
  }

  // ---- What a run does, stated independently of the machine ----

  /** The outcome table: a run is suspended when the abort pauses a snippet mid-playback, and
      cancelled only when the abort was heard before a break that is followed by another snippet;
      everything else (no abort, an abort during the last snippet's `play()`, the first
      snippet's missed abort) completes. */
  function ExpectedOutcome(n: nat, abort: AbortTiming): Outcome {
    match abort
    case NoAbort => Completed
    case DuringPlay(i) => if i < n then Suspended else Completed
    case DuringBreak(i) => if i + 1 < n then Cancelled else Completed
    case BeforeListen(i) => if 0 < i && i + 1 < n then Cancelled else Completed
  }

  /** How many snippets a run starts: all of them, or those up to the one the abort stopped at. */
  function StartedCount(n: nat, abort: AbortTiming): nat {
    if ExpectedOutcome(n, abort) == Completed then n else abort.i + 1
  }

  /** How many breaks a run waits out: one after every snippet but the last, or those before
      the abort took effect. */
  function BreakCount(n: nat, abort: AbortTiming): nat {
    match ExpectedOutcome(n, abort)
    case Completed => if n == 0 then 0 else n - 1
    case Cancelled => abort.i + 1
    case Suspended => abort.i
  }

  /** The abort timing as seen from iteration `k` on: a moment before iteration `k` is one the
      remaining loop never reaches. */
  function From(abort: AbortTiming, k: nat): AbortTiming {
    if abort.NoAbort? || abort.i < k then NoAbort else abort
  }

  /** The listener discipline, read from `live` (the snippet whose listener is attached):
      a listener is attached only when none is, only the attached one is removed, and a pause
      comes only from the attached listener, for its own snippet. */
  predicate ListenerOk(t: seq<Event>, live: Option<nat>)
    decreases |t|
  {
    if |t| == 0 then true
    else match t[0]
      case Listen(i) => live == None && ListenerOk(t[1..], Some(i))
      case Unlisten(i) => live == Some(i) && ListenerOk(t[1..], None)
      case Pause(i) => live == Some(i) && ListenerOk(t[1..], live)
      case _ => ListenerOk(t[1..], live)
  }

  /** The attached listener after the events of `t`. */
  function LiveAfter(t: seq<Event>, live: Option<nat>): Option<nat>
    decreases |t|
  {
    if |t| == 0 then live
    else match t[0]
      case Listen(i) => LiveAfter(t[1..], Some(i))
      case Unlisten(_) => LiveAfter(t[1..], None)
      case _ => LiveAfter(t[1..], live)
  }

  lemma {:induction false} ListenerOkAppend(a: seq<Event>, b: seq<Event>, live: Option<nat>)
    ensures ListenerOk(a + b, live) <==> ListenerOk(a, live) && ListenerOk(b, LiveAfter(a, live))
    ensures LiveAfter(a + b, live) == LiveAfter(b, LiveAfter(a, live))
    decreases |a|
  {
    if |a| == 0 {
      assert a + b == b;
    } else {
      assert (a + b)[1..] == a[1..] + b;
      assert (a + b)[0] == a[0];
      match a[0]
      case Listen(i) => ListenerOkAppend(a[1..], b, Some(i));
      case Unlisten(_) => ListenerOkAppend(a[1..], b, None);
      case _ => ListenerOkAppend(a[1..], b, live);
    }
  }

  /** Every `Play(i)` immediately follows `Reset(i)`: each snippet starts from position 0. */
  ghost predicate ResetBeforePlay(t: seq<Event>) {
    forall k :: 0 <= k < |t| && t[k].Play? ==> k > 0 && t[k - 1] == Reset(t[k].i)
  }

  lemma ResetBeforePlayAppend(a: seq<Event>, b: seq<Event>)
    requires ResetBeforePlay(a) && ResetBeforePlay(b)
    requires |b| > 0 ==> !b[0].Play?
    ensures ResetBeforePlay(a + b)
  {
    forall k | 0 <= k < |a + b| && (a + b)[k].Play? ensures k > 0 && (a + b)[k - 1] == Reset((a + b)[k].i) {
      if k >= |a| {
        assert (a + b)[k] == b[k - |a|];
        if k > |a| {
          assert (a + b)[k - 1] == b[k - 1 - |a|];
        }
      }
    }
  }

  // ---- The pieces of one iteration ----

  /** One event in front of a trace, for each way of reading a trace. */
  lemma Cons(e: Event, t: seq<Event>, live: Option<nat>)
    ensures Plays([e] + t) == (if e.Play? then [e.i] else []) + Plays(t)
    ensures Waits([e] + t) == (if e.Wait? then [e.ms] else []) + Waits(t)
    ensures ListenerOk([e] + t, live) == match e
      case Listen(i) => live == None && ListenerOk(t, Some(i))
      case Unlisten(i) => live == Some(i) && ListenerOk(t, None)
      case Pause(i) => live == Some(i) && ListenerOk(t, live)
      case _ => ListenerOk(t, live)
    ensures LiveAfter([e] + t, live) == match e
      case Listen(i) => LiveAfter(t, Some(i))
      case Unlisten(_) => LiveAfter(t, None)
      case _ => LiveAfter(t, live)
  {
    assert ([e] + t)[0] == e && ([e] + t)[1..] == t;
  }

  lemma AttachFacts(i: nat, heard: bool)
    requires heard ==> i > 0
    ensures var t := Attach(i, heard);
      && Plays(t) == [i] && Waits(t) == []
      && t[0] == Reset(i) && ResetBeforePlay(t)
      && ListenerOk(t, Previous(i)) && LiveAfter(t, Previous(i)) == Some(i)
  {
    if i == 0 {
      AttachFirst();
    } else {
      AttachLater(i, heard);
    }
  }

  lemma AttachFirst()
    ensures var t := Attach(0, false);
      && Plays(t) == [0] && Waits(t) == []
      && t[0] == Reset(0) && ResetBeforePlay(t)
      && ListenerOk(t, None) && LiveAfter(t, None) == Some(0)
  {
    var last := [Listen(0)];
    Cons(Listen(0), [], None);
    Cons(Play(0), last, None);
    Cons(Reset(0), [Play(0)] + last, None);
    assert Attach(0, false) == [Reset(0)] + ([Play(0)] + last);
  }

  lemma AttachLater(i: nat, heard: bool)
    requires i > 0
    ensures var t := Attach(i, heard);
      && Plays(t) == [i] && Waits(t) == []
      && t[0] == Reset(i) && ResetBeforePlay(t)
      && ListenerOk(t, Some(i - 1)) && LiveAfter(t, Some(i - 1)) == Some(i)
  {
    var p := Some(i - 1);
    var u := [Unlisten(i - 1), Listen(i)];
    SwapFacts(i);
    var mid := if heard then [Pause(i - 1)] + u else u;
    if heard {
      Cons(Pause(i - 1), u, p);
    }
    assert Plays(mid) == [] && Waits(mid) == [] && !mid[0].Play?;
    assert ListenerOk(mid, p) && LiveAfter(mid, p) == Some(i);
    Cons(Play(i), mid, p);
    Cons(Reset(i), [Play(i)] + mid, p);
    assert Attach(i, heard) == [Reset(i)] + ([Play(i)] + mid);
  }

  /** The listener swap of iteration `i > 0`: the previous listener removed, the new one attached. */
  lemma SwapFacts(i: nat)
    requires i > 0
    ensures var u := [Unlisten(i - 1), Listen(i)];
      && Plays(u) == [] && Waits(u) == [] && ResetBeforePlay(u)
      && ListenerOk(u, Some(i - 1)) && LiveAfter(u, Some(i - 1)) == Some(i)
  {
    var last := [Listen(i)];
    Cons(Listen(i), [], None);
    Cons(Unlisten(i - 1), last, Some(i - 1));
    assert [Unlisten(i - 1), Listen(i)] == [Unlisten(i - 1)] + last;
  }

  lemma BreakFacts(i: nat, paused: bool, breakMs: nat)
    ensures var t := Break(i, paused, breakMs);
      && Plays(t) == [] && Waits(t) == [breakMs]
      && !t[0].Play? && t[|t| - 1] == Wait(breakMs) && ResetBeforePlay(t)
      && ListenerOk(t, Some(i)) && LiveAfter(t, Some(i)) == Some(i)
  {
    var w := [Wait(breakMs)];
    Cons(Wait(breakMs), [], Some(i));
    Cons(Pause(i), w, Some(i));
    assert Break(i, paused, breakMs) == if paused then [Pause(i)] + w else w;
  }

  lemma PauseFacts(i: nat)
    ensures Plays([Pause(i)]) == [] && Waits([Pause(i)]) == [] && ResetBeforePlay([Pause(i)])
    ensures ListenerOk([Pause(i)], Some(i))
  {
    Cons(Pause(i), [], Some(i));
    assert [Pause(i)] + [] == [Pause(i)];
  }

  // ---- What a run does ----

  lemma {:induction false} PlayFromOutcome(n: nat, breakMs: nat, abort: AbortTiming, k: nat)
    requires k <= n
    ensures PlayFrom(n, breakMs, abort, k).outcome == ExpectedOutcome(n, From(abort, k))
    decreases n - k
  {
    if k < n && k != n - 1 && abort != DuringPlay(k) && abort != DuringBreak(k) && !(k > 0 && abort == BeforeListen(k)) {
      PlayFromOutcome(n, breakMs, abort, k + 1);
    }
  }

  /** The outcome of a whole run follows the table: it resolves `true` only when the abort was
      heard before a break followed by another snippet, and never settles exactly when a
      snippet was paused mid-playback. */
  lemma PlayAudioOutcome(n: nat, breakMs: nat, abort: AbortTiming)
    ensures PlayAudio(n, breakMs, abort).outcome == ExpectedOutcome(n, abort)
    ensures PlayAudio(n, breakMs, abort).outcome.Resolved() == Some(true) <==>
      ((abort.DuringBreak? && abort.i + 1 < n) || (abort.BeforeListen? && 0 < abort.i && abort.i + 1 < n))
    ensures PlayAudio(n, breakMs, abort).outcome.Resolved() == None <==> (abort.DuringPlay? && abort.i < n)
  {
    PlayFromOutcome(n, breakMs, abort, 0);
    assert From(abort, 0) == abort;
  }

  /** What iteration `k` contributes to the started snippets: its own, then those of the
      remaining iterations when the loop goes on. */
  lemma StepPlays(n: nat, breakMs: nat, abort: AbortTiming, k: nat)
    requires k < n
    ensures var heard := k > 0 && abort == BeforeListen(k);
      var goesOn := abort != DuringPlay(k) && k != n - 1 && !heard && abort != DuringBreak(k);
      && (!goesOn ==> Plays(PlayFrom(n, breakMs, abort, k).trace) == [k])
      && (goesOn ==> Plays(PlayFrom(n, breakMs, abort, k).trace) == [k] + Plays(PlayFrom(n, breakMs, abort, k + 1).trace))
  {
    var heard := k > 0 && abort == BeforeListen(k);
    var attached := Attach(k, heard);
    var pausedInBreak := abort == DuringBreak(k);
    AttachFacts(k, heard);
    if abort == DuringPlay(k) {
      PauseFacts(k);
      PlaysAppend(attached, [Pause(k)]);
    } else if k != n - 1 {
      var broke := attached + Break(k, pausedInBreak, breakMs);
      BreakFacts(k, pausedInBreak, breakMs);
      PlaysAppend(attached, Break(k, pausedInBreak, breakMs));
      if !heard && !pausedInBreak {
        PlaysAppend(broke, PlayFrom(n, breakMs, abort, k + 1).trace);
      }
    }
  }

  /** The counts seen from iteration `k`: one iteration that ends the run started only its own
      snippet and waited at most its own break; one that goes on leaves the counts unchanged. */
  lemma CountsStep(n: nat, abort: AbortTiming, k: nat)
    requires k < n
    ensures var heard := k > 0 && abort == BeforeListen(k);
      var stops := abort == DuringPlay(k) || k == n - 1;
      var goesOn := !stops && !heard && abort != DuringBreak(k);
      && (!goesOn ==> StartedCount(n, From(abort, k)) == k + 1)
      && (stops ==> BreakCount(n, From(abort, k)) == k)
      && (!stops && !goesOn ==> BreakCount(n, From(abort, k)) == k + 1)
      && (goesOn ==> StartedCount(n, From(abort, k + 1)) == StartedCount(n, From(abort, k)))
      && (goesOn ==> BreakCount(n, From(abort, k + 1)) == BreakCount(n, From(abort, k)))
  {
  }

  lemma {:induction false} PlayFromPlays(n: nat, breakMs: nat, abort: AbortTiming, k: nat)
    requires k <= n
    ensures k <= StartedCount(n, From(abort, k)) <= n
    ensures Plays(PlayFrom(n, breakMs, abort, k).trace) == Range(k, StartedCount(n, From(abort, k)))
    decreases n - k
  {
    if k < n {
      StepPlays(n, breakMs, abort, k);
      CountsStep(n, abort, k);
      if abort != DuringPlay(k) && k != n - 1 && !(k > 0 && abort == BeforeListen(k)) && abort != DuringBreak(k) {
        PlayFromPlays(n, breakMs, abort, k + 1);
        RangeCons(k, StartedCount(n, From(abort, k)));
      } else {
        assert Range(k, k + 1) == [k];
      }
    }
  }

  /** A run starts the snippets `0, 1, …` in order, each once, up to `StartedCount`: all of
      them when it completes, and none after the one the abort stopped at when it does not —
      in particular no snippet after the break that ends a cancelled run. */
  lemma PlayAudioPlays(n: nat, breakMs: nat, abort: AbortTiming)
    ensures StartedCount(n, abort) <= n
    ensures Plays(PlayAudio(n, breakMs, abort).trace) == Range(0, StartedCount(n, abort))
  {
    PlayFromPlays(n, breakMs, abort, 0);
    assert From(abort, 0) == abort;
  }

  /** What iteration `k` contributes to the breaks: none when it pauses or plays the last
      snippet, otherwise one break, followed by those of the remaining iterations when the loop
      goes on. */
  lemma StepWaits(n: nat, breakMs: nat, abort: AbortTiming, k: nat)
    requires k < n
    ensures var heard := k > 0 && abort == BeforeListen(k);
      var stops := abort == DuringPlay(k) || k == n - 1;
      var goesOn := !stops && !heard && abort != DuringBreak(k);
      && (stops ==> Waits(PlayFrom(n, breakMs, abort, k).trace) == [])
      && (!stops && !goesOn ==> Waits(PlayFrom(n, breakMs, abort, k).trace) == [breakMs])
      && (goesOn ==> Waits(PlayFrom(n, breakMs, abort, k).trace) == [breakMs] + Waits(PlayFrom(n, breakMs, abort, k + 1).trace))
  {
    var heard := k > 0 && abort == BeforeListen(k);
    var attached := Attach(k, heard);
    var pausedInBreak := abort == DuringBreak(k);
    AttachFacts(k, heard);
    if abort == DuringPlay(k) {
      PauseFacts(k);
      WaitsAppend(attached, [Pause(k)]);
    } else if k != n - 1 {
      var broke := attached + Break(k, pausedInBreak, breakMs);
      BreakFacts(k, pausedInBreak, breakMs);
      WaitsAppend(attached, Break(k, pausedInBreak, breakMs));
      assert Waits(broke) == [breakMs];
      if !heard && !pausedInBreak {
        var rest := PlayFrom(n, breakMs, abort, k + 1);
        assert PlayFrom(n, breakMs, abort, k).trace == broke + rest.trace;
        WaitsAppend(broke, rest.trace);
      } else {
        assert PlayFrom(n, breakMs, abort, k).trace == broke;
      }
    }
  }

  lemma {:induction false} PlayFromWaits(n: nat, breakMs: nat, abort: AbortTiming, k: nat)
    requires k < n
    ensures BreakCount(n, From(abort, k)) >= k
    ensures Waits(PlayFrom(n, breakMs, abort, k).trace) == Repeat(breakMs, BreakCount(n, From(abort, k)) - k)
    decreases n - k
  {
    StepWaits(n, breakMs, abort, k);
    CountsStep(n, abort, k);
    if abort == DuringPlay(k) || k == n - 1 {
    } else if (k > 0 && abort == BeforeListen(k)) || abort == DuringBreak(k) {
      assert Repeat(breakMs, 1) == [breakMs];
    } else {
      PlayFromWaits(n, breakMs, abort, k + 1);
      RepeatCons(breakMs, BreakCount(n, From(abort, k)) - (k + 1));
    }
  }

  /** Every break lasts `breakMs`, and there is one after each snippet but the last when the
      run completes: `n - 1` of them, none for an empty list. */
  lemma PlayAudioWaits(n: nat, breakMs: nat, abort: AbortTiming)
    ensures Waits(PlayAudio(n, breakMs, abort).trace) == Repeat(breakMs, BreakCount(n, abort))
  {
    if n > 0 {
      PlayFromWaits(n, breakMs, abort, 0);
      assert From(abort, 0) == abort;
    }
  }

  /** Without an abort every snippet is started in order, `n - 1` breaks are waited out, and
      the run resolves `false`; for an empty list nothing happens at all. */
  lemma UninterruptedRun(n: nat, breakMs: nat)
    ensures PlayAudio(n, breakMs, NoAbort).outcome == Completed
    ensures Plays(PlayAudio(n, breakMs, NoAbort).trace) == Range(0, n)
    ensures Waits(PlayAudio(n, breakMs, NoAbort).trace) == Repeat(breakMs, if n == 0 then 0 else n - 1)
    ensures n == 0 ==> PlayAudio(n, breakMs, NoAbort).trace == []
  {
    PlayAudioOutcome(n, breakMs, NoAbort);
    PlayAudioPlays(n, breakMs, NoAbort);
    PlayAudioWaits(n, breakMs, NoAbort);
  }

  lemma {:induction false} PlayFromLastEvent(n: nat, breakMs: nat, abort: AbortTiming, k: nat)
    requires k <= n
    ensures var r := PlayFrom(n, breakMs, abort, k);
      && (r.outcome == Cancelled ==> |r.trace| > 0 && r.trace[|r.trace| - 1] == Wait(breakMs))
      && (r.outcome == Suspended ==> abort.DuringPlay? && |r.trace| > 0 && r.trace[|r.trace| - 1] == Pause(abort.i))
    decreases n - k
  {
    if k < n && abort != DuringPlay(k) && k != n - 1 {
      var heard := k > 0 && abort == BeforeListen(k);
      var pausedInBreak := abort == DuringBreak(k);
      var broke := Attach(k, heard) + Break(k, pausedInBreak, breakMs);
      BreakFacts(k, pausedInBreak, breakMs);
      if heard || pausedInBreak {
        assert PlayFrom(n, breakMs, abort, k).trace == broke;
        assert broke[|broke| - 1] == Wait(breakMs);
      } else {
        var rest := PlayFrom(n, breakMs, abort, k + 1);
        PlayFromLastEvent(n, breakMs, abort, k + 1);
        assert PlayFrom(n, breakMs, abort, k) == Run(broke + rest.trace, rest.outcome);
      }
    }
  }

  /** `playAudio` returns `true` only from the check that follows a completed break; a run
      that never settles ends with the pause of the snippet that was playing. */
  lemma PlayAudioLastEvent(n: nat, breakMs: nat, abort: AbortTiming)
    ensures var r := PlayAudio(n, breakMs, abort);
      && (r.outcome == Cancelled ==> |r.trace| > 0 && r.trace[|r.trace| - 1] == Wait(breakMs))
      && (r.outcome == Suspended ==> abort.DuringPlay? && |r.trace| > 0 && r.trace[|r.trace| - 1] == Pause(abort.i))
  {
    PlayFromLastEvent(n, breakMs, abort, 0);
  }

  lemma {:induction false} PlayFromListeners(n: nat, breakMs: nat, abort: AbortTiming, k: nat)
    requires k <= n
    ensures ListenerOk(PlayFrom(n, breakMs, abort, k).trace, Previous(k))
    decreases n - k
  {
    if k < n {
      var heard := k > 0 && abort == BeforeListen(k);
      var attached := Attach(k, heard);
      var pausedInBreak := abort == DuringBreak(k);
      AttachFacts(k, heard);
      if abort == DuringPlay(k) {
        PauseFacts(k);
        ListenerOkAppend(attached, [Pause(k)], Previous(k));
      } else if k != n - 1 {
        var broke := attached + Break(k, pausedInBreak, breakMs);
        BreakFacts(k, pausedInBreak, breakMs);
        ListenerOkAppend(attached, Break(k, pausedInBreak, breakMs), Previous(k));
        if !heard && !pausedInBreak {
          PlayFromListeners(n, breakMs, abort, k + 1);
          ListenerOkAppend(broke, PlayFrom(n, breakMs, abort, k + 1).trace, Previous(k));
        }
      }
    }
  }

  /** At most one abort listener is ever attached: the previous one is removed before the next
      is added, and a fired listener pauses only its own snippet. */
  lemma PlayAudioListeners(n: nat, breakMs: nat, abort: AbortTiming)
    ensures ListenerOk(PlayAudio(n, breakMs, abort).trace, None)
  {
    PlayFromListeners(n, breakMs, abort, 0);
  }

  lemma {:induction false} PlayFromResets(n: nat, breakMs: nat, abort: AbortTiming, k: nat)
    requires k <= n
    ensures var t := PlayFrom(n, breakMs, abort, k).trace;
      ResetBeforePlay(t) && (|t| > 0 ==> t[0] == Reset(k))
    decreases n - k
  {
    if k < n {
      var heard := k > 0 && abort == BeforeListen(k);
      var attached := Attach(k, heard);
      var pausedInBreak := abort == DuringBreak(k);
      AttachFacts(k, heard);
      if abort == DuringPlay(k) {
        PauseFacts(k);
        ResetBeforePlayAppend(attached, [Pause(k)]);
      } else if k != n - 1 {
        var broke := attached + Break(k, pausedInBreak, breakMs);
        BreakFacts(k, pausedInBreak, breakMs);
        ResetBeforePlayAppend(attached, Break(k, pausedInBreak, breakMs));
        if !heard && !pausedInBreak {
          PlayFromResets(n, breakMs, abort, k + 1);
          ResetBeforePlayAppend(broke, PlayFrom(n, breakMs, abort, k + 1).trace);
        }
      }
    }
  }

  /** Each snippet is reset to position 0 right before it is started. */
  lemma PlayAudioResets(n: nat, breakMs: nat, abort: AbortTiming)
    ensures ResetBeforePlay(PlayAudio(n, breakMs, abort).trace)
  {
    PlayFromResets(n, breakMs, abort, 0);
  }

  // ---- The worked examples ----

  /** Three snippets with breaks: three starts and two 5000 ms breaks; with breaks switched
      off the code still waits, twice, for 0 ms. */
  lemma ThreeSnippets()
    ensures Plays(PlayAudio(3, 5000, NoAbort).trace) == [0, 1, 2]
    ensures Waits(PlayAudio(3, 5000, NoAbort).trace) == [5000, 5000]
    ensures Waits(PlayAudio(3, 0, NoAbort).trace) == [0, 0]
  {
    UninterruptedRun(3, 5000);
    UninterruptedRun(3, 0);
    assert Range(0, 3) == [0, 1, 2];
    assert Repeat(5000, 2) == [5000, 5000];
    assert Repeat(0, 2) == [0, 0];
  }

  /** A skip during the break after snippet 1 of 3 cancels the run before snippet 2 starts;
      a skip while snippet 1 is playing pauses it, and the run never settles. */
  lemma SkipInTheMiddle()
    ensures PlayAudio(3, 5000, DuringBreak(1)).outcome == Cancelled
    ensures Plays(PlayAudio(3, 5000, DuringBreak(1)).trace) == [0, 1]
    ensures PlayAudio(3, 5000, DuringPlay(1)).outcome == Suspended
    ensures Plays(PlayAudio(3, 5000, DuringPlay(1)).trace) == [0, 1]
  {
    PlayAudioOutcome(3, 5000, DuringBreak(1));
    PlayAudioPlays(3, 5000, DuringBreak(1));
    PlayAudioOutcome(3, 5000, DuringPlay(1));
    PlayAudioPlays(3, 5000, DuringPlay(1));
    assert Range(0, 2) == [0, 1];
  }
}
