/** The typewriter headline of the home page. Each run of its effect is one
    `Step`: it either schedules a timer whose firing yields the next state
    (the delay is the timer's), or sets `isPaused` at once (delay 0). */
module Typewriter {

  const TypingWords: seq<string> := ["COMING SOON"]
  const TypingSpeed: nat := 150
  const DeletingSpeed: nat := 100
  const PauseDuration: nat := 1000

  datatype Animation = Animation(
    wordIndex: nat,
    charIndex: nat,
    isDeleting: bool,
    isPaused: bool,
    animatedText: string)

  /** The state the page mounts with. */
  const Initial := Animation(0, 0, false, false, "")

  /** `w.substring(0, n)` for n >= 0: the end index is clamped to the length. */
  function Prefix(w: string, n: nat): (p: string)
    ensures n <= |w| ==> p == w[..n]
    ensures |w| < n ==> p == w
  {
    if n <= |w| then w[..n] else w
  }

  /** The current word, when the index is in range. */
  function Word(words: seq<string>, t: Animation): string
    requires t.wordIndex < |words|
  {
    words[t.wordIndex]
  }

  /** Every reachable state: indices in range, the text shown is the
      current word cut at `charIndex`, and a pause only ever starts at a
      full word (after typing) or at an empty one (after deleting). */
  ghost predicate Inv(words: seq<string>, t: Animation) {
    && t.wordIndex < |words|
    && t.charIndex <= |Word(words, t)|
    && t.animatedText == Word(words, t)[..t.charIndex]
    && (t.isPaused && !t.isDeleting ==> t.charIndex == |Word(words, t)|)
    && (t.isPaused && t.isDeleting ==> t.charIndex == 0)
  }

  /** The next state, and the delay after which it takes effect. */
  datatype Tick = Tick(next: Animation, delay: nat)

  /** One run of the animation effect. */
  function Step(words: seq<string>, t: Animation): (r: Tick)
    requires t.wordIndex < |words|
    ensures r.next != t
    ensures r.next.wordIndex < |words|
    ensures Inv(words, t) ==> Inv(words, r.next)
    // a pause ends after PauseDuration: typing turns into deleting, deleting into the next word
    ensures t.isPaused ==>
      && r.delay == PauseDuration && !r.next.isPaused && r.next.animatedText == t.animatedText
      && r.next.isDeleting == !t.isDeleting
      && (!t.isDeleting ==> r.next.charIndex == t.charIndex && r.next.wordIndex == t.wordIndex)
      && (t.isDeleting ==> r.next.charIndex == 0 && r.next.wordIndex == (t.wordIndex + 1) % |words|)
    // deleting one character
    ensures !t.isPaused && t.isDeleting && 0 < t.charIndex <= |Word(words, t)| ==>
      && r.delay == DeletingSpeed
      && r.next == t.(charIndex := t.charIndex - 1, animatedText := Word(words, t)[..t.charIndex - 1])
    // typing one character
    ensures !t.isPaused && !t.isDeleting && t.charIndex < |Word(words, t)| ==>
      && r.delay == TypingSpeed
      && r.next == t.(charIndex := t.charIndex + 1, animatedText := Word(words, t)[..t.charIndex + 1])
    // the end of a phase: pause at once, text untouched
    ensures !t.isPaused && (if t.isDeleting then t.charIndex == 0 else |Word(words, t)| <= t.charIndex) ==>
      r == Tick(t.(isPaused := true), 0)
  {
    var word := Word(words, t);
    if t.isPaused then
      if !t.isDeleting then
        Tick(t.(isPaused := false, isDeleting := true), PauseDuration)
      else
        Tick(t.(isPaused := false, isDeleting := false, charIndex := 0,
                wordIndex := (t.wordIndex + 1) % |words|), PauseDuration)
    else if t.isDeleting then
      if t.charIndex > 0 then
        Tick(t.(animatedText := Prefix(word, t.charIndex - 1), charIndex := t.charIndex - 1), DeletingSpeed)
      else
        Tick(t.(isPaused := true), 0)
    else
      if t.charIndex < |word| then
        Tick(t.(animatedText := Prefix(word, t.charIndex + 1), charIndex := t.charIndex + 1), TypingSpeed)
      else
        Tick(t.(isPaused := true), 0)
  }

  lemma InitialSatisfiesInv(words: seq<string>)
    requires 0 < |words|
    ensures Inv(words, Initial)
  {
  }

  /** n effect runs in a row: the state reached and the sum of the delays. */
  function Run(words: seq<string>, t: Animation, n: nat): (r: Tick)
    requires Inv(words, t)
    ensures Inv(words, r.next)
    decreases n
  {
    if n == 0 then
      Tick(t, 0)
    else
      var first := Step(words, t);
      var rest := Run(words, first.next, n - 1);
      Tick(rest.next, first.delay + rest.delay)
  }

  /** Running m steps and then n more is running m + n steps. */
  lemma {:induction false} RunAdditive(words: seq<string>, t: Animation, m: nat, n: nat)
    requires Inv(words, t)
    ensures var a := Run(words, t, m); var b := Run(words, a.next, n);
      Run(words, t, m + n) == Tick(b.next, a.delay + b.delay)
    decreases m
  {
    if m > 0 {
      RunAdditive(words, Step(words, t).next, m - 1, n);
    }
  }

  /** Two runs in a row, given where each ends. */
  lemma RunThen(words: seq<string>, t: Animation, m: nat, n: nat,
                mid: Animation, d1: nat, end: Animation, d2: nat)
    requires Inv(words, t)
    requires Run(words, t, m) == Tick(mid, d1) && Run(words, mid, n) == Tick(end, d2)
    ensures Run(words, t, m + n) == Tick(end, d1 + d2)
  {
    RunAdditive(words, t, m, n);
  }

  /** Typing k more characters takes k * TypingSpeed. */
  lemma {:induction false} TypingPhase(words: seq<string>, t: Animation, k: nat)
    requires Inv(words, t) && !t.isPaused && !t.isDeleting
    requires t.charIndex + k <= |Word(words, t)|
    ensures Run(words, t, k) ==
      Tick(t.(charIndex := t.charIndex + k, animatedText := Word(words, t)[..t.charIndex + k]), k * TypingSpeed)
    decreases k
  {
    if k > 0 {
      var next := Step(words, t).next;
      TypingPhase(words, next, k - 1);
    }
  }

  /** Deleting k characters takes k * DeletingSpeed. */
  lemma {:induction false} DeletingPhase(words: seq<string>, t: Animation, k: nat)
    requires Inv(words, t) && !t.isPaused && t.isDeleting
    requires k <= t.charIndex
    ensures Run(words, t, k) ==
      Tick(t.(charIndex := t.charIndex - k, animatedText := Word(words, t)[..t.charIndex - k]), k * DeletingSpeed)
    decreases k
  {
    if k > 0 {
      var next := Step(words, t).next;
      DeletingPhase(words, next, k - 1);
    }
  }

  /** The state in which word i starts being typed. */
  function Start(i: nat): Animation {
    Animation(i, 0, false, false, "")
  }

  /** Effect runs for one word: type it, pause, delete it, pause. */
  function WordSteps(w: string): nat {
    2 * |w| + 4
  }

  /** Time for one word. */
  function WordTime(w: string): nat {
    |w| * TypingSpeed + PauseDuration + |w| * DeletingSpeed + PauseDuration
  }

  /** One word's full cycle brings the animation to the start of the next
      word, in exactly WordTime of delay. */
  lemma {:induction false} WordCycle(words: seq<string>, i: nat)
    requires i < |words|
    ensures Run(words, Start(i), WordSteps(words[i])) ==
      Tick(Start((i + 1) % |words|), WordTime(words[i]))
  {
    var w := words[i];
    var n := |w|;
    var s0 := Start(i);
    assert Inv(words, s0);
    TypingPhase(words, s0, n);
    var s1 := Run(words, s0, n).next;
    assert s1 == Animation(i, n, false, false, w) by { assert w[..n] == w; }
    var s2 := Animation(i, n, true, false, w);
    PauseThenResume(words, s1);
    DeletingPhase(words, s2, n);
    var s3 := Animation(i, 0, true, false, "");
    assert Run(words, s2, n) == Tick(s3, n * DeletingSpeed);
    PauseThenResume(words, s3);
    RunAdditive(words, s0, n, 2);
    RunAdditive(words, s0, n + 2, n);
    RunAdditive(words, s0, n + 2 + n, 2);
  }

  /** At the end of a phase the effect pauses at once, and the pause ends
      one PauseDuration later. */
  lemma PauseThenResume(words: seq<string>, t: Animation)
    requires Inv(words, t) && !t.isPaused
    requires if t.isDeleting then t.charIndex == 0 else t.charIndex == |Word(words, t)|
    ensures Run(words, t, 2) == Tick(Step(words, t.(isPaused := true)).next, PauseDuration)
  {
  }

  /** Effect runs and time from the start of word j to the end of the list. */
  function StepsFrom(words: seq<string>, j: nat): nat
    decreases |words| - j
  {
    if j >= |words| then 0 else WordSteps(words[j]) + StepsFrom(words, j + 1)
  }

  function TimeFrom(words: seq<string>, j: nat): nat
    decreases |words| - j
  {
    if j >= |words| then 0 else WordTime(words[j]) + TimeFrom(words, j + 1)
  }

  /** From the start of word j, the rest of the list is typed and deleted
      and the animation is back at the start of the first word. */
  lemma {:induction false} CycleFrom(words: seq<string>, j: nat)
    requires j < |words|
    ensures Run(words, Start(j), StepsFrom(words, j)) == Tick(Start(0), TimeFrom(words, j))
    decreases |words| - j
  {
    WordCycle(words, j);
    if j + 1 < |words| {
      CycleFrom(words, j + 1);
      assert (j + 1) % |words| == j + 1;
      assert Inv(words, Start(j));
      RunThen(words, Start(j), WordSteps(words[j]), StepsFrom(words, j + 1),
              Start(j + 1), WordTime(words[j]), Start(0), TimeFrom(words, j + 1));
    } else {
      assert StepsFrom(words, j + 1) == 0;
      assert TimeFrom(words, j + 1) == 0;
    }
  }

  /** The animation is periodic: one pass over the whole word list returns
      it to the state it mounted in. */
  lemma Periodic(words: seq<string>)
    requires 0 < |words|
    ensures Run(words, Initial, StepsFrom(words, 0)) == Tick(Initial, TimeFrom(words, 0))
  {
    CycleFrom(words, 0);
  }

  /** With the page's word list the period is 26 effect runs and
      11 * 150 + 1000 + 11 * 100 + 1000 = 4750 ms. */
  lemma DefaultPeriod()
    ensures Run(TypingWords, Initial, 26) == Tick(Initial, 4750)
  {
    WordCycle(TypingWords, 0);
    assert |TypingWords[0]| == 11;
  }
}
