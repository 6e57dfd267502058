/** The typewriter placeholder of the search box (App.tsx): it types one of
    the demo scenarios a character per tick, pauses, deletes it a character
    per tick, and moves to the next scenario. Each run of the effect is one
    tick; the delays between runs are not modelled. */
module Typewriter {

  const Scenarios: seq<string> := [
    "When my code runs on the first try...",
    "Me on Monday morning...",
    "My wallet watching me buy a new GPU...",
    "The microwave food spinning while I wait...",
    "Coding at 3 AM be like...",
    "Who wrote this code? (It was me)",
    "When the senior dev approves my PR..."
  ]

  datatype State = State(placeholder: string, index: nat, charIndex: nat, deleting: bool, paused: bool)

  /** The shown text is always the first `charIndex` characters of the
      current scenario; a pause happens only with the whole scenario shown
      and never while deleting. The effect is stated for any list of
      scenarios; the component runs it on `Scenarios`. */
  predicate Valid(texts: seq<string>, s: State)
  {
    && s.index < |texts|
    && s.charIndex <= |texts[s.index]|
    && s.placeholder == texts[s.index][..s.charIndex]
    && !(s.paused && s.deleting)
    && (s.paused ==> s.charIndex == |texts[s.index]|)
  }

  /** Scenario `i`, nothing typed yet. */
  function Start(i: nat): State
  {
    State("", i, 0, false, false)
  }

  /** One run of the effect. */
  function Step(texts: seq<string>, s: State): (r: State)
    requires Valid(texts, s)
    ensures Valid(texts, r)
    ensures r == Start((s.index + 1) % |texts|) <==> s.deleting && s.charIndex == 0
    ensures r.index != s.index ==> r == Start((s.index + 1) % |texts|)
  {
    var current := texts[s.index];
    if s.paused then s.(paused := false, deleting := true)
    else if s.deleting then
      if s.charIndex > 0 then s.(placeholder := current[..s.charIndex - 1], charIndex := s.charIndex - 1)
      else
        var next := (s.index + 1) % |texts|;
        assert texts[next][..0] == [] == s.placeholder;
        s.(deleting := false, index := next)
    else
      if s.charIndex < |current| then s.(placeholder := current[..s.charIndex + 1], charIndex := s.charIndex + 1)
      else s.(paused := true)
  }

  function Steps(texts: seq<string>, s: State, n: nat): (r: State)
    requires Valid(texts, s)
    ensures Valid(texts, r)
    decreases n
  {
    if n == 0 then s else Steps(texts, Step(texts, s), n - 1)
  }

  lemma {:induction false} StepsAdd(texts: seq<string>, s: State, a: nat, b: nat)
    requires Valid(texts, s)
    ensures Steps(texts, s, a + b) == Steps(texts, Steps(texts, s, a), b)
    decreases a
  {
    if a > 0 {
      StepsAdd(texts, Step(texts, s), a - 1, b);
    }
  }

  /** `k` characters typed. */
  function Typed(texts: seq<string>, i: nat, k: nat): State
    requires i < |texts| && k <= |texts[i]|
  {
    State(texts[i][..k], i, k, false, false)
  }

  /** `k` characters left while deleting. */
  function Deleting(texts: seq<string>, i: nat, k: nat): State
    requires i < |texts| && k <= |texts[i]|
  {
    State(texts[i][..k], i, k, true, false)
  }

  lemma {:induction false} TypeUp(texts: seq<string>, i: nat, k: nat)
    requires i < |texts| && k <= |texts[i]|
    ensures Steps(texts, Start(i), k) == Typed(texts, i, k)
  {
    if k > 0 {
      TypeUp(texts, i, k - 1);
      StepsAdd(texts, Start(i), k - 1, 1);
      assert Steps(texts, Typed(texts, i, k - 1), 1) == Step(texts, Typed(texts, i, k - 1));
    } else {
      assert texts[i][..0] == "";
    }
  }

  lemma {:induction false} DeleteDown(texts: seq<string>, i: nat, k: nat)
    requires i < |texts| && k <= |texts[i]|
    ensures Steps(texts, Deleting(texts, i, |texts[i]|), k) == Deleting(texts, i, |texts[i]| - k)
  {
    if k > 0 {
      DeleteDown(texts, i, k - 1);
      StepsAdd(texts, Deleting(texts, i, |texts[i]|), k - 1, 1);
      var d := Deleting(texts, i, |texts[i]| - (k - 1));
      assert Steps(texts, d, 1) == Step(texts, d);
    }
  }

  /** A full cycle: typing a scenario of length L, the pause, the switch to
      deleting, deleting it and the move to the next scenario take 2L + 3
      runs, and end with nothing shown at the next scenario. */
  lemma Cycle(texts: seq<string>, i: nat)
    requires i < |texts|
    ensures Steps(texts, Start(i), 2 * |texts[i]| + 3) == Start((i + 1) % |texts|)
  {
    var n := |texts[i]|;
    TypeUp(texts, i, n);
    var paused := Step(texts, Typed(texts, i, n));
    assert paused == State(texts[i][..n], i, n, false, true);
    assert Step(texts, paused) == Deleting(texts, i, n);
    assert Steps(texts, Typed(texts, i, n), 2) == Steps(texts, paused, 1) == Steps(texts, Deleting(texts, i, n), 0);
    StepsAdd(texts, Start(i), n, 2);
    DeleteDown(texts, i, n);
    StepsAdd(texts, Start(i), n + 2, n);
    assert Steps(texts, Start(i), 2 * n + 2) == Deleting(texts, i, 0);
    assert texts[i][..0] == "";
    assert Steps(texts, Deleting(texts, i, 0), 1) == Steps(texts, Step(texts, Deleting(texts, i, 0)), 0)
             == Start((i + 1) % |texts|);
    StepsAdd(texts, Start(i), 2 * n + 2, 1);
  }

  /** The effect's state as a component: `placeholder`, `placeholderIndex`,
      `charIndex`, `isDeleting`, `isPaused`. */
  class Typewriter {
    var placeholder: string
    var placeholderIndex: nat
    var charIndex: nat
    var isDeleting: bool
    var isPaused: bool

    function Current(): State
      reads this
    {
      State(placeholder, placeholderIndex, charIndex, isDeleting, isPaused)
    }

    constructor()
      ensures Current() == Start(0) && Valid(Scenarios, Current())
    {
      placeholder := "";
      placeholderIndex := 0;
      charIndex := 0;
      isDeleting := false;
      isPaused := false;
    }

    /** One run of the effect, branch by branch. */
    method Tick()
      requires Valid(Scenarios, Current())
      modifies this
      ensures Current() == Step(Scenarios, old(Current()))
      ensures Valid(Scenarios, Current())
    {
      var currentText := Scenarios[placeholderIndex];
      if isPaused {
        isPaused := false;
        isDeleting := true;
      } else if isDeleting {
        if charIndex > 0 {
          placeholder := currentText[..charIndex - 1];
          charIndex := charIndex - 1;
        } else {
          isDeleting := false;
          placeholderIndex := (placeholderIndex + 1) % |Scenarios|;
        }
      } else {
        if charIndex < |currentText| {
          placeholder := currentText[..charIndex + 1];
          charIndex := charIndex + 1;
        } else {
          isPaused := true;
        }
      }
    }
  }
}
