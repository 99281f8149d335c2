/** The typewriter effect's schedule: before handing it to the animation
    library, the component turns its list of sentences into a timeline of
    steps. Each sentence is typed out one character per step, held, erased
    one character per step, and followed by a gap. A step lasts `duration`
    seconds after waiting `delay` seconds and, when it starts, shows `show`
    (a pause shows nothing new). */
module TextType {

  datatype Option<T> = None | Some(value: T)

  datatype Step = Step(duration: real, delay: real, show: Option<string>)

  /** The wait before the very first typing step of the whole timeline. */
  const StartDelay: real := 0.5

  // ------------------------------------------------------ specification

  /** The typing run of sentence `s`: |s| + 1 steps showing `s[..0]` up to
      `s[..|s|]`, each `typingSpeed / 1000` seconds. `typed` is the number of
      typing steps already in the timeline; only the step with global
      number 0 waits StartDelay. */
  function Typing(s: string, typed: nat, typingSpeed: real): seq<Step> {
    seq(|s| + 1, i requires 0 <= i <= |s| =>
      Step(typingSpeed / 1000.0, if typed + i == 0 then StartDelay else 0.0, Some(s[..i])))
  }

  /** The erasing run of sentence `s`: |s| + 1 steps showing `s[..|s|]` down
      to `s[..0]`, each `typingSpeed * 0.5 / 1000` seconds. */
  function Erasing(s: string, typingSpeed: real): seq<Step> {
    seq(|s| + 1, i requires 0 <= i <= |s| =>
      Step(typingSpeed * 0.5 / 1000.0, 0.0, Some(s[..|s| - i])))
  }

  /** The pause between typing and erasing a sentence. */
  function Hold(pauseDuration: real): Step {
    Step(pauseDuration / 1000.0, 0.0, None)
  }

  /** The gap after a sentence: 0.3 s, or 1.0 s before the loop restarts. */
  function Gap(last: bool): Step {
    Step(if last then 1.0 else 0.3, 0.0, None)
  }

  /** Everything scheduled for one sentence. */
  function Block(s: string, typed: nat, last: bool, typingSpeed: real, pauseDuration: real): seq<Step> {
    Typing(s, typed, typingSpeed) + [Hold(pauseDuration)] + Erasing(s, typingSpeed) + [Gap(last)]
  }

  /** Total length of the sentences. */
  function LengthSum(text: seq<string>): nat {
    if |text| == 0 then 0 else LengthSum(text[..|text| - 1]) + |text[|text| - 1]|
  }

  /** Typing steps scheduled for the first n sentences (`globalIndex` after them). */
  function TypedBefore(text: seq<string>, n: nat): nat
    requires n <= |text|
  {
    LengthSum(text[..n]) + n
  }

  /** The timeline after the first n sentences. */
  function Upto(text: seq<string>, n: nat, typingSpeed: real, pauseDuration: real): seq<Step>
    requires n <= |text|
  {
    if n == 0 then []
    else Upto(text, n - 1, typingSpeed, pauseDuration)
         + Block(text[n - 1], TypedBefore(text, n - 1), n == |text|, typingSpeed, pauseDuration)
  }

  /** The whole schedule; an empty list gets none. */
  function Timeline(text: seq<string>, typingSpeed: real, pauseDuration: real): Option<seq<Step>> {
    if |text| == 0 then None else Some(Upto(text, |text|, typingSpeed, pauseDuration))
  }

  // ------------------------------------------------------------ one sentence

  /** A sentence's block, step by step: |s| + 1 typing steps showing the
      prefixes in increasing length, the hold, |s| + 1 erasing steps showing
      them in decreasing length, and the gap. */
  lemma BlockShape(s: string, typed: nat, last: bool, typingSpeed: real, pauseDuration: real)
    ensures var b := Block(s, typed, last, typingSpeed, pauseDuration);
      |b| == 2 * |s| + 4 &&
      (forall i :: 0 <= i <= |s| ==>
        b[i] == Step(typingSpeed / 1000.0, if typed + i == 0 then StartDelay else 0.0, Some(s[..i]))) &&
      b[|s| + 1] == Step(pauseDuration / 1000.0, 0.0, None) &&
      (forall k :: |s| + 2 <= k <= 2 * |s| + 2 ==>
        b[k] == Step(typingSpeed * 0.5 / 1000.0, 0.0, Some(s[..2 * |s| + 2 - k]))) &&
      b[2 * |s| + 3] == Step(if last then 1.0 else 0.3, 0.0, None)
  {
    var b := Block(s, typed, last, typingSpeed, pauseDuration);
    var typing, erasing := Typing(s, typed, typingSpeed), Erasing(s, typingSpeed);
    forall k | 0 <= k < |b|
      ensures k <= |s| ==> b[k] == typing[k]
      ensures |s| + 2 <= k <= 2 * |s| + 2 ==> b[k] == erasing[k - |s| - 2]
    {
    }
  }

  /** Every step of a block shows a prefix of its sentence or nothing new;
      typing starts from the empty text and erasing ends with it. */
  lemma BlockPrefixes(s: string, typed: nat, last: bool, typingSpeed: real, pauseDuration: real)
    ensures var b := Block(s, typed, last, typingSpeed, pauseDuration);
      (forall k :: 0 <= k < |b| && b[k].show.Some? ==> b[k].show.value <= s) &&
      b[0].show == Some("") && b[2 * |s| + 2].show == Some("")
  {
    BlockShape(s, typed, last, typingSpeed, pauseDuration);
    var b := Block(s, typed, last, typingSpeed, pauseDuration);
    forall k | 0 <= k < |b| && b[k].show.Some?
      ensures b[k].show.value <= s
    {
      if k <= |s| {
        assert b[k].show.value == s[..k];
      } else {
        assert b[k].show.value == s[..2 * |s| + 2 - k];
      }
    }
  }

  /** Erasing replays typing backwards: the i-th erasing step shows what the
      (|s| - i)-th typing step showed. */
  lemma ErasingMirrorsTyping(s: string, typed: nat, typingSpeed: real)
    ensures var typing, erasing := Typing(s, typed, typingSpeed), Erasing(s, typingSpeed);
      |erasing| == |typing| &&
      forall i :: 0 <= i < |erasing| ==> erasing[i].show == typing[|s| - i].show
  {
  }

  /** Only the first step of a block can wait, and it does exactly when no
      typing step came before. */
  lemma BlockDelays(s: string, typed: nat, last: bool, typingSpeed: real, pauseDuration: real)
    ensures var b := Block(s, typed, last, typingSpeed, pauseDuration);
      forall k :: 0 <= k < |b| ==> b[k].delay == if typed == 0 && k == 0 then StartDelay else 0.0
  {
    BlockShape(s, typed, last, typingSpeed, pauseDuration);
    var b := Block(s, typed, last, typingSpeed, pauseDuration);
  }

  // ------------------------------------------------------ whole timeline

  /** Where sentence n's block starts in the timeline. */
  function Start(text: seq<string>, n: nat): nat
    requires n <= |text|
  {
    2 * LengthSum(text[..n]) + 4 * n
  }

  lemma {:induction false} UptoLength(text: seq<string>, n: nat, typingSpeed: real, pauseDuration: real)
    requires n <= |text|
    ensures |Upto(text, n, typingSpeed, pauseDuration)| == Start(text, n)
  {
    if n > 0 {
      UptoLength(text, n - 1, typingSpeed, pauseDuration);
      BlockShape(text[n - 1], TypedBefore(text, n - 1), n == |text|, typingSpeed, pauseDuration);
      assert text[..n][..n - 1] == text[..n - 1];
    }
  }

  /** The schedule only grows: the timeline after m sentences is a prefix of
      the timeline after n >= m. */
  lemma {:induction false} UptoPrefix(text: seq<string>, m: nat, n: nat, typingSpeed: real, pauseDuration: real)
    requires m <= n <= |text|
    ensures Upto(text, m, typingSpeed, pauseDuration) <= Upto(text, n, typingSpeed, pauseDuration)
  {
    if m < n {
      UptoPrefix(text, m, n - 1, typingSpeed, pauseDuration);
    }
  }

  /** Sentences are scheduled in list order: sentence n's block occupies the
      steps from Start(n) to Start(n + 1), and only the last sentence is
      followed by the long gap. */
  lemma BlockInPlace(text: seq<string>, n: nat, typingSpeed: real, pauseDuration: real)
    requires n < |text|
    ensures var all := Upto(text, |text|, typingSpeed, pauseDuration);
      Start(text, n) <= Start(text, n + 1) <= |all| &&
      all[Start(text, n)..Start(text, n + 1)]
        == Block(text[n], TypedBefore(text, n), n == |text| - 1, typingSpeed, pauseDuration)
  {
    UptoPrefix(text, n + 1, |text|, typingSpeed, pauseDuration);
    UptoLength(text, n, typingSpeed, pauseDuration);
    UptoLength(text, n + 1, typingSpeed, pauseDuration);
    UptoLength(text, |text|, typingSpeed, pauseDuration);
    var all := Upto(text, |text|, typingSpeed, pauseDuration);
    var upto := Upto(text, n + 1, typingSpeed, pauseDuration);
    var block := Block(text[n], TypedBefore(text, n), n == |text| - 1, typingSpeed, pauseDuration);
    assert upto == Upto(text, n, typingSpeed, pauseDuration) + block;
    assert all[Start(text, n)..Start(text, n + 1)] == upto[Start(text, n)..];
  }

  /** The timeline has `sum of (2 * |s| + 4)` steps: two per character, plus
      the empty text typed and erased, the hold and the gap per sentence. */
  lemma StepCount(text: seq<string>, typingSpeed: real, pauseDuration: real)
    requires |text| > 0
    ensures Timeline(text, typingSpeed, pauseDuration).Some?
    ensures |Timeline(text, typingSpeed, pauseDuration).value| == 2 * LengthSum(text) + 4 * |text|
  {
    UptoLength(text, |text|, typingSpeed, pauseDuration);
    assert text[..|text|] == text;
  }

  /** `globalIndex` is never reset, so only the very first step of the whole
      timeline waits. */
  lemma {:induction false} OnlyFirstDelayed(text: seq<string>, n: nat, typingSpeed: real, pauseDuration: real)
    requires n <= |text|
    ensures var steps := Upto(text, n, typingSpeed, pauseDuration);
      forall k :: 0 <= k < |steps| ==> steps[k].delay == if k == 0 then StartDelay else 0.0
  {
    if n > 0 {
      OnlyFirstDelayed(text, n - 1, typingSpeed, pauseDuration);
      var before := Upto(text, n - 1, typingSpeed, pauseDuration);
      var typed := TypedBefore(text, n - 1);
      var block := Block(text[n - 1], typed, n == |text|, typingSpeed, pauseDuration);
      BlockDelays(text[n - 1], typed, n == |text|, typingSpeed, pauseDuration);
      UptoLength(text, n - 1, typingSpeed, pauseDuration);
      assert typed == 0 <==> n == 1;
      var steps := before + block;
      forall k | 0 <= k < |steps|
        ensures steps[k].delay == if k == 0 then StartDelay else 0.0
      {
        if k >= |before| {
          assert steps[k] == block[k - |before|];
        }
      }
    }
  }

  // ------------------------------------------------------------ builder

  /** The effect's loops: for each sentence, a typing loop counting up
      (advancing `globalIndex`), a pause, an erasing loop counting down,
      and a gap. */
  method BuildTimeline(text: seq<string>, typingSpeed: real, pauseDuration: real)
    returns (timeline: Option<seq<Step>>)
    ensures timeline == Timeline(text, typingSpeed, pauseDuration)
  {
    if |text| == 0 {
      return None;
    }
    var steps: seq<Step> := [];
    var globalIndex: nat := 0;
    for n := 0 to |text|
      invariant steps == Upto(text, n, typingSpeed, pauseDuration)
      invariant globalIndex == TypedBefore(text, n)
    {
      var sentence := text[n];
      var isLastSentence := n == |text| - 1;
      ghost var typed := globalIndex;
      ghost var typing := Typing(sentence, typed, typingSpeed);
      ghost var start := steps;
      for i := 0 to |sentence| + 1
        invariant steps == start + typing[..i]
        invariant globalIndex == typed + i
      {
        var step := Step(typingSpeed / 1000.0, if globalIndex == 0 then StartDelay else 0.0, Some(sentence[..i]));
        assert typing[..i + 1] == typing[..i] + [step];
        steps := steps + [step];
        globalIndex := globalIndex + 1;
      }
      assert typing[..|sentence| + 1] == typing;
      steps := steps + [Step(pauseDuration / 1000.0, 0.0, None)];
      ghost var erasing := Erasing(sentence, typingSpeed);
      ghost var mid := steps;
      var i: int := |sentence|;
      while i >= 0
        invariant -1 <= i <= |sentence|
        invariant steps == mid + erasing[..|sentence| - i]
      {
        var step := Step(typingSpeed * 0.5 / 1000.0, 0.0, Some(sentence[..i]));
        assert erasing[..|sentence| - i + 1] == erasing[..|sentence| - i] + [step];
        steps := steps + [step];
        i := i - 1;
      }
      assert erasing[..|sentence| + 1] == erasing;
      if !isLastSentence {
        steps := steps + [Step(0.3, 0.0, None)];
      } else {
        steps := steps + [Step(1.0, 0.0, None)];
      }
      assert text[..n + 1][..n] == text[..n];
      assert globalIndex == TypedBefore(text, n + 1);
    }
    return Some(steps);
  }
}
