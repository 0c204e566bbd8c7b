/** What the color page (app/color/page.tsx) and the dual-task page (app/dual/page.tsx)
    share, written once: the difficulty palette, the draw that never shows green right after a
    green trial, how a tap or a timeout is judged, and the results-screen figures. The two
    pages each declare their own copy of this code; the dual page's trial also carries a digit,
    so the shared `Trial` has a `number` field that the color page leaves empty. */
module ColorRules {
  import opened Types
  import opened Evaluation
  import opened SeqUtil

  datatype Difficulty = Easy | Medium | Hard

  datatype Color = Green | Red | Blue | Yellow

  /** The colours getRandomColor can pick: green and red, plus blue from medium on, plus yellow on hard. */
  function Palette(difficulty: Difficulty): (colors: seq<Color>)
    ensures |colors| == match difficulty case Easy => 2 case Medium => 3 case Hard => 4
    ensures colors[0] == Green && colors[1] == Red
    ensures Blue in colors <==> difficulty != Easy
    ensures Yellow in colors <==> difficulty == Hard
  {
    var colors := [Green, Red];
    var colors := if difficulty == Medium || difficulty == Hard then colors + [Blue] else colors;
    if difficulty == Hard then colors + [Yellow] else colors
  }

  /** Membership in the palette, by cases. */
  predicate InPalette(c: Color, difficulty: Difficulty)
  {
    match c
    case Green => true
    case Red => true
    case Blue => difficulty != Easy
    case Yellow => difficulty == Hard
  }

  lemma InPaletteIsMembership(c: Color, difficulty: Difficulty)
    ensures InPalette(c, difficulty) <==> c in Palette(difficulty)
  {
  }

  /** Math.floor(u * n) for a draw u of Math.random(). */
  function DrawIndex(u: real, n: nat): (i: nat)
    requires 0.0 <= u < 1.0 && n > 0
    ensures i < n
  {
    assert u * n as real < n as real by {
      assert (1.0 - u) * n as real > 0.0;
    }
    (u * n as real).Floor
  }

  /** getRandomColor for the draw u. */
  function RandomColor(difficulty: Difficulty, u: real): (c: Color)
    requires 0.0 <= u < 1.0
    ensures c in Palette(difficulty) && InPalette(c, difficulty)
  {
    var colors := Palette(difficulty);
    colors[DrawIndex(u, |colors|)]
  }

  /** The do-while guard: a green draw is thrown away when the last recorded trial was green. */
  predicate Rejected(c: Color, lastWasGreen: bool)
  {
    c == Green && lastWasGreen
  }

  predicate ValidDraws(draws: seq<real>)
  {
    forall i :: 0 <= i < |draws| ==> 0.0 <= draws[i] < 1.0
  }

  /** The colour-choosing loop of startNextTrial. `draws` are the successive values of
      Math.random() the loop consumes; some draw must be accepted, as the loop runs until one is. */
  method ChooseColor(difficulty: Difficulty, lastWasGreen: bool, draws: seq<real>) returns (color: Color, used: nat)
    requires ValidDraws(draws)
    requires exists i :: 0 <= i < |draws| && !Rejected(RandomColor(difficulty, draws[i]), lastWasGreen)
    ensures used < |draws| && color == RandomColor(difficulty, draws[used])
    ensures color in Palette(difficulty) && InPalette(color, difficulty)
    ensures !Rejected(color, lastWasGreen)
    ensures forall j :: 0 <= j < used ==> Rejected(RandomColor(difficulty, draws[j]), lastWasGreen)
  {
    used := 0;
    color := RandomColor(difficulty, draws[0]);
    while Rejected(color, lastWasGreen)
      invariant used < |draws| && color == RandomColor(difficulty, draws[used])
      invariant forall j :: 0 <= j < used ==> Rejected(RandomColor(difficulty, draws[j]), lastWasGreen)
      decreases |draws| - used
    {
      used := used + 1;
      color := RandomColor(difficulty, draws[used]);
    }
  }

  /** One recorded stimulus. `number` is the dual page's digit (always none on the color page). */
  datatype Trial = Trial(color: Color, number: Option<int>, shouldTap: bool, userTapped: bool,
                         reactionTime: Option<int>, correct: bool)

  /** How every trial is judged: tap exactly on green; a time is kept only for a correct tap. */
  predicate WellJudged(t: Trial)
  {
    && t.shouldTap == (t.color == Green)
    && t.correct == (t.userTapped == t.shouldTap)
    && (t.reactionTime.Some? <==> t.userTapped && t.correct)
  }

  /** The trial handleTap records, `elapsed` ms after the stimulus appeared. */
  function TapTrial(color: Color, number: Option<int>, elapsed: int): (t: Trial)
    ensures WellJudged(t) && t.userTapped && t.color == color && t.number == number
    ensures t.correct <==> color == Green
    ensures t.reactionTime == if color == Green then Some(elapsed) else None
  {
    var shouldTap := color == Green;
    var correct := shouldTap;
    Trial(color, number, shouldTap, true, if correct then Some(elapsed) else None, correct)
  }

  /** The trial the 3-second timeout records when there was no tap. */
  function TimeoutTrial(color: Color, number: Option<int>): (t: Trial)
    ensures WellJudged(t) && !t.userTapped && t.color == color && t.number == number
    ensures t.correct <==> color != Green
    ensures t.reactionTime.None?
  {
    var shouldTap := color == Green;
    Trial(color, number, shouldTap, false, None, !shouldTap)
  }

  predicate LastWasGreen(trials: seq<Trial>)
  {
    |trials| > 0 && trials[|trials| - 1].color == Green
  }

  /** Trials i - 1 and i are both green. */
  predicate GreenPair(trials: seq<Trial>, i: int)
    requires 0 < i < |trials|
  {
    trials[i - 1].color == Green && trials[i].color == Green
  }

  predicate NoGreenAfterGreen(trials: seq<Trial>)
  {
    forall i :: 0 < i < |trials| ==> !GreenPair(trials, i)
  }

  /** Appending a colour the draw accepted keeps green from following green. */
  lemma AcceptedKeepsNoGreenAfterGreen(trials: seq<Trial>, t: Trial)
    requires NoGreenAfterGreen(trials)
    requires !Rejected(t.color, LastWasGreen(trials))
    ensures NoGreenAfterGreen(trials + [t])
  {
    var ts := trials + [t];
    forall i | 0 < i < |ts|
      ensures !GreenPair(ts, i)
    {
      if i < |trials| {
        assert GreenPair(ts, i) == GreenPair(trials, i);
      }
    }
  }

  function CorrectTrials(trials: seq<Trial>): (cs: seq<Trial>)
    ensures |cs| <= |trials|
    ensures forall t :: t in cs <==> t in trials && t.correct
  {
    Filter(trials, (t: Trial) => t.correct)
  }

  /** correct / total * 100, unrounded. */
  function Accuracy(trials: seq<Trial>): (a: real)
    requires |trials| > 0
    ensures 0.0 <= a <= 100.0
    ensures a == 100.0 <==> |CorrectTrials(trials)| == |trials|
    ensures a == 0.0 <==> |CorrectTrials(trials)| == 0
  {
    var c, n := |CorrectTrials(trials)| as real, |trials| as real;
    RatioBounds(c, n);
    (c / n) * 100.0
  }

  /** A ratio of a count to a larger total lies in [0, 1], with its ends reached exactly at 0 and at the total. */
  lemma RatioBounds(c: real, n: real)
    requires 0.0 <= c <= n && n > 0.0
    ensures 0.0 <= c / n <= 1.0
    ensures c / n == 1.0 <==> c == n
    ensures c / n == 0.0 <==> c == 0.0
  {
    DivLe(0.0, c, n);
    DivLe(c, n, n);
    assert n / n == 1.0;
    assert (c / n) * n == c;
  }

  lemma DivLe(x: real, y: real, n: real)
    requires x <= y && n > 0.0
    ensures x / n <= y / n
  {
    assert y / n - x / n == (y - x) / n;
    assert (y - x) / n * n == y - x;
  }

  /** With at most 100 trials, one mistake already keeps the percentage at or below 99. */
  lemma PercentageBelow99(c: nat, n: nat)
    requires c < n <= 100
    ensures (c as real / n as real) * 100.0 <= 99.0
  {
    var x, m := 100.0 * c as real, n as real;
    assert (c as real / m) * 100.0 == x / m;
    assert x <= 99.0 * m;
    DivLe(x, 99.0 * m, m);
    assert (99.0 * m) / m == 99.0;
  }

  /** The rounded percentage lies in 0..100, and for at most 100 trials it reads 100 exactly when
      every trial is correct (from 200 trials on, one mistake in 200 already rounds up to 100). */
  lemma RoundOfPercentage(trials: seq<Trial>)
    requires |trials| > 0
    ensures 0 <= Round(Accuracy(trials)) <= 100
    ensures |trials| <= 100 ==> (Round(Accuracy(trials)) == 100 <==> |CorrectTrials(trials)| == |trials|)
  {
    var a := Accuracy(trials);
    RoundMonotone(0.0, a);
    RoundMonotone(a, 100.0);
    if |trials| <= 100 && |CorrectTrials(trials)| < |trials| {
      PercentageBelow99(|CorrectTrials(trials)|, |trials|);
      RoundMonotone(a, 99.0);
    }
  }

  /** The times finishGame averages: correct trials whose time is not undefined. */
  function SavedReactionTimes(trials: seq<Trial>): (times: seq<int>)
    ensures |times| <= |trials|
    ensures forall x :: x in times ==> exists t :: t in trials && t.correct && t.reactionTime == Some(x)
  {
    if |trials| == 0 then []
    else
      var t := trials[0];
      var rest := SavedReactionTimes(trials[1..]);
      assert forall u :: u in trials[1..] ==> u in trials;
      if t.correct && t.reactionTime.Some? then [t.reactionTime.value] + rest else rest
  }

  /** The times the results screen averages: correct trials whose time is truthy, so a 0 ms time is dropped. */
  function DisplayedReactionTimes(trials: seq<Trial>): (times: seq<int>)
    ensures |times| <= |trials|
    ensures forall x :: x in times ==> x != 0
  {
    if |trials| == 0 then []
    else
      var t := trials[0];
      var rest := DisplayedReactionTimes(trials[1..]);
      if t.correct && t.reactionTime.Some? && t.reactionTime.value != 0 then [t.reactionTime.value] + rest else rest
  }

  /** The time a trial adds to the saved list: its time when it is correct and timed, else nothing. */
  function SavedTimeOf(t: Trial): seq<int>
  {
    if t.correct && t.reactionTime.Some? then [t.reactionTime.value] else []
  }

  /** The time a trial adds to the displayed list: as saved, but not a 0 ms time. */
  function DisplayedTimeOf(t: Trial): seq<int>
  {
    if t.correct && t.reactionTime.Some? && t.reactionTime.value != 0 then [t.reactionTime.value] else []
  }

  /** Recording a trial appends its own time, if it has one that counts, and nothing else: the saved
      list is every correct trial's time, each once, in trial order. */
  lemma {:induction false} SavedReactionTimesAppend(trials: seq<Trial>, t: Trial)
    ensures SavedReactionTimes(trials + [t]) == SavedReactionTimes(trials) + SavedTimeOf(t)
  {
    if |trials| == 0 {
      assert [] + [t] == [t];
      assert [t][1..] == [];
    } else {
      assert (trials + [t])[1..] == trials[1..] + [t];
      SavedReactionTimesAppend(trials[1..], t);
    }
  }

  /** The same for the displayed list, where a 0 ms time adds nothing. */
  lemma {:induction false} DisplayedReactionTimesAppend(trials: seq<Trial>, t: Trial)
    ensures DisplayedReactionTimes(trials + [t]) == DisplayedReactionTimes(trials) + DisplayedTimeOf(t)
  {
    if |trials| == 0 {
      assert [] + [t] == [t];
      assert [t][1..] == [];
    } else {
      assert (trials + [t])[1..] == trials[1..] + [t];
      DisplayedReactionTimesAppend(trials[1..], t);
    }
  }

  /** For judged trials a time is saved exactly for each tap on green, in trial order. */
  lemma {:induction false} SavedTimesAreGreenTaps(trials: seq<Trial>)
    requires forall i :: 0 <= i < |trials| ==> WellJudged(trials[i])
    ensures |SavedReactionTimes(trials)| == |Filter(trials, (t: Trial) => t.userTapped && t.color == Green)|
  {
    if |trials| > 0 {
      SavedTimesAreGreenTaps(trials[1..]);
    }
  }

  /** The two averages agree unless some kept time is exactly 0 ms. */
  lemma {:induction false} DisplayedEqualsSavedWithoutZero(trials: seq<Trial>)
    requires forall i :: 0 <= i < |trials| ==> trials[i].reactionTime != Some(0)
    ensures DisplayedReactionTimes(trials) == SavedReactionTimes(trials)
  {
    if |trials| > 0 {
      DisplayedEqualsSavedWithoutZero(trials[1..]);
    }
  }

  /** The average of the kept times, 0 when there are none. */
  function AverageTime(times: seq<int>): (avg: real)
    ensures |times| == 0 ==> avg == 0.0
    ensures |times| > 0 ==> Min(times) as real <= avg <= Max(times) as real
  {
    if |times| > 0 then
      MeanBetweenMinAndMax(times);
      Mean(times)
    else 0.0
  }

  /** Two correct taps at 0 ms and 100 ms: the record averages 50 ms, the results screen shows 100 ms. */
  lemma ZeroTimeExample()
    ensures Round(AverageTime(SavedReactionTimes([TapTrial(Green, None, 0), TapTrial(Green, None, 100)]))) == 50
    ensures Round(AverageTime(DisplayedReactionTimes([TapTrial(Green, None, 0), TapTrial(Green, None, 100)]))) == 100
  {
    var trials := [TapTrial(Green, None, 0), TapTrial(Green, None, 100)];
    assert SavedReactionTimes(trials) == [0, 100];
    assert DisplayedReactionTimes(trials) == [100];
    assert Sum([0, 100]) == 100;
    assert Sum([100]) == 100;
  }

  /** The figures on the results screen (both pages' `stats`, without the dual page's memory part). */
  datatype ResultStats = ResultStats(correct: nat, total: nat, accuracy: int, avgTime: int)

  function ResultsStats(trials: seq<Trial>): (r: Option<ResultStats>)
    ensures r.None? <==> |trials| == 0
    ensures r.Some? ==> r.value.correct == |CorrectTrials(trials)| <= r.value.total == |trials|
    ensures r.Some? ==> r.value.accuracy == Round(Accuracy(trials)) && 0 <= r.value.accuracy <= 100
    ensures r.Some? ==> r.value.avgTime == Round(AverageTime(DisplayedReactionTimes(trials)))
  {
    if |trials| == 0 then None
    else Some(ResultStats(|CorrectTrials(trials)|, |trials|, Round(Accuracy(trials)),
                          Round(AverageTime(DisplayedReactionTimes(trials)))))
  }
}
