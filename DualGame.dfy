/** The dual-task page (app/dual/page.tsx): the color judgement of the color page, where a
    stimulus also shows a digit 1-9 with 30 % chance; after the last trial the player enters the
    sum of the digits seen. Events, timers and the ghost `stimulusOpen` are as on the color
    page; `coin` and `digitDraw` are the draws of Math.random() for the digit. */
module DualGame {
  import opened Types
  import opened Evaluation
  import opened Storage
  import opened ColorRules

  const TrialTimeoutMs: nat := 3000
  const CountdownStart: int := 3
  /** A stimulus shows a digit when its draw is below this. */
  const DigitChance: real := 0.3

  datatype Phase = Intro | Ready | Playing | Complete

  function TotalTrials(difficulty: Difficulty): (n: nat)
    ensures n == match difficulty case Easy => 15 case Medium => 20 case Hard => 25
    ensures 15 <= n <= 25
  {
    if difficulty == Easy then 15 else if difficulty == Medium then 20 else 25
  }

  /** getRandomNumber: Math.floor(Math.random() * 9) + 1. */
  function RandomNumber(u: real): (d: int)
    requires 0.0 <= u < 1.0
    ensures 1 <= d <= 9
  {
    DrawIndex(u, 9) + 1
  }

  predicate IsDigit(n: Option<int>)
  {
    n.Some? ==> 1 <= n.value <= 9
  }

  /** The digit a stimulus shows, for the draws `coin` and `digitDraw`. */
  function StimulusNumber(coin: real, digitDraw: real): (n: Option<int>)
    requires 0.0 <= coin < 1.0 && 0.0 <= digitDraw < 1.0
    ensures n.Some? <==> coin < DigitChance
    ensures IsDigit(n)
  {
    if coin < DigitChance then Some(RandomNumber(digitDraw)) else None
  }

  /** What `memoryNumbers` gains for a stimulus: its digit, if it has one (a digit is at least
      1, so the source's truthiness test is a presence test). */
  function DigitOf(n: Option<int>): (ds: seq<int>)
    ensures |ds| <= 1 && (ds == [] <==> n.None?)
  {
    if n.Some? then [n.value] else []
  }

  /** The digits the trials carried, in trial order. */
  function Digits(trials: seq<Trial>): (ds: seq<int>)
    ensures |ds| <= |trials|
  {
    if |trials| == 0 then [] else DigitOf(trials[0].number) + Digits(trials[1..])
  }

  lemma {:induction false} DigitsAppend(trials: seq<Trial>, t: Trial)
    ensures Digits(trials + [t]) == Digits(trials) + DigitOf(t.number)
  {
    if |trials| == 0 {
      assert trials + [t] == [t];
      assert [t][1..] == [];
    } else {
      assert (trials + [t])[1..] == trials[1..] + [t];
      DigitsAppend(trials[1..], t);
    }
  }

  /** Every digit the trials carried is 1-9 when each trial's digit is. */
  lemma {:induction false} DigitsAreDigits(trials: seq<Trial>)
    requires forall i :: 0 <= i < |trials| ==> IsDigit(trials[i].number)
    ensures forall i :: 0 <= i < |Digits(trials)| ==> 1 <= Digits(trials)[i] <= 9
  {
    if |trials| > 0 {
      DigitsAreDigits(trials[1..]);
    }
  }

  /** handleNumberSubmit's memory accuracy. `answer` is parseInt of the typed text, none when
      that is NaN; `|| 0` turns NaN into 0, so no answer counts as 0. */
  function MemoryAccuracy(memoryNumbers: seq<int>, answer: Option<int>): (acc: int)
    ensures acc == 100 <==> answer.GetOr(0) == Sum(memoryNumbers)
    ensures acc == 0 <==> answer.GetOr(0) != Sum(memoryNumbers)
  {
    var correctSum := Sum(memoryNumbers);
    var userSum := answer.GetOr(0);
    if correctSum == userSum then 100 else 0
  }

  /** No digits and nothing typed is a right answer; a blank answer to 3 + 5 is wrong. */
  lemma MemoryAccuracyExamples()
    ensures MemoryAccuracy([3, 5], Some(8)) == 100
    ensures MemoryAccuracy([3, 5], None) == 0
    ensures MemoryAccuracy([], None) == 100
  {
    assert Sum([3, 5]) == 8;
  }

  /** The speed part of the dual score: up to 20 points, 50 ms per point, none without a time. */
  function SpeedPoints(avgTime: real): (p: real)
    ensures 0.0 <= p <= 20.0
    ensures avgTime <= 0.0 || avgTime >= 1000.0 ==> p == 0.0
  {
    if avgTime > 0.0 then (if 20.0 - avgTime / 50.0 > 0.0 then 20.0 - avgTime / 50.0 else 0.0) else 0.0
  }

  /** The dual score: 50 % colour judgement, 30 % memory, up to 20 points for speed, rounded. */
  function DualScoreOf(colorAccuracy: real, memoryAccuracy: int, avgTime: real): (score: int)
    requires 0.0 <= colorAccuracy <= 100.0 && 0 <= memoryAccuracy <= 100
    ensures 0 <= score <= 100
    ensures score == Round(colorAccuracy / 100.0 * 50.0 + memoryAccuracy as real / 100.0 * 30.0 + SpeedPoints(avgTime))
  {
    var colorScore := colorAccuracy / 100.0 * 50.0;
    var memoryScore := memoryAccuracy as real / 100.0 * 30.0;
    Round(colorScore + memoryScore + SpeedPoints(avgTime))
  }

  /** The right sum is worth exactly 30 points. */
  lemma RightSumAddsThirty(colorAccuracy: real, avgTime: real)
    requires 0.0 <= colorAccuracy <= 100.0
    ensures DualScoreOf(colorAccuracy, 100, avgTime) == DualScoreOf(colorAccuracy, 0, avgTime) + 30
  {
  }

  lemma DualScoreExample()
    ensures DualScoreOf(100.0, 100, 100.0) == 98
    ensures DualScoreOf(100.0, 0, 0.0) == 50
  {
  }

  /** The record finishGame hands to addRecord: none without a user or without a trial;
      otherwise the rounded average of the saved times, the mean of the two accuracies rounded,
      and the dual score. */
  function DualRecord(user: Option<User>, trials: seq<Trial>, memoryAccuracy: int): (r: Option<NewRecord>)
    requires 0 <= memoryAccuracy <= 100
    ensures r.Some? <==> user.Some? && |trials| > 0
    ensures r.Some? ==> r.value.userId == user.value.id && r.value.userName == user.value.name
    ensures r.Some? ==> r.value.mode == Dual && r.value.sleepHours.None?
    ensures r.Some? ==> r.value.reactionTime == Round(AverageTime(SavedReactionTimes(trials)))
    ensures r.Some? ==> r.value.accuracy == Some(Round((Accuracy(trials) + memoryAccuracy as real) / 2.0))
    ensures r.Some? ==> 0 <= r.value.accuracy.value <= 100
    ensures r.Some? ==> r.value.score == Some(DualScoreOf(Accuracy(trials), memoryAccuracy, AverageTime(SavedReactionTimes(trials))))
    ensures r.Some? ==> 0 <= r.value.score.value <= 100
  {
    if user.Some? && |trials| > 0 then
      var colorAccuracy := Accuracy(trials);
      var avgTime := AverageTime(SavedReactionTimes(trials));
      var accuracy := (colorAccuracy + memoryAccuracy as real) / 2.0;
      RoundMonotone(0.0, accuracy);
      RoundMonotone(accuracy, 100.0);
      Some(NewRecord(user.value.id, user.value.name, Dual, Round(avgTime), Some(Round(accuracy)),
                     Some(DualScoreOf(colorAccuracy, memoryAccuracy, avgTime)), None))
    else None
  }

  /** The results screen: the color figures plus the sum and the count of the digits. */
  datatype DualStats = DualStats(base: ResultStats, memorySum: int, memoryCount: nat)

  function DualResultsStats(trials: seq<Trial>, memoryNumbers: seq<int>): (r: Option<DualStats>)
    ensures r.None? <==> |trials| == 0
    ensures r.Some? ==> Some(r.value.base) == ResultsStats(trials)
    ensures r.Some? ==> r.value.memorySum == Sum(memoryNumbers) && r.value.memoryCount == |memoryNumbers|
  {
    match ResultsStats(trials)
    case None => None
    case Some(base) => Some(DualStats(base, Sum(memoryNumbers), |memoryNumbers|))
  }

  /** Every recorded trial is judged by the color rules, carries a digit or none, uses the
      difficulty's palette, and green never follows green. */
  predicate TrialsJudged(trials: seq<Trial>, difficulty: Difficulty)
  {
    && (forall i :: 0 <= i < |trials| ==>
          WellJudged(trials[i]) && IsDigit(trials[i].number) && InPalette(trials[i].color, difficulty))
    && NoGreenAfterGreen(trials)
  }

  predicate AllDigits(ds: seq<int>)
  {
    forall i :: 0 <= i < |ds| ==> 1 <= ds[i] <= 9
  }

  /** A stimulus the draw may show after these trials. */
  predicate StimulusAllowed(color: Color, number: Option<int>, trials: seq<Trial>, difficulty: Difficulty)
  {
    InPalette(color, difficulty) && !Rejected(color, LastWasGreen(trials)) && IsDigit(number)
  }

  /** Recording the allowed stimulus keeps the trials judged. */
  lemma RecordKeepsJudged(trials: seq<Trial>, difficulty: Difficulty, t: Trial)
    requires TrialsJudged(trials, difficulty)
    requires WellJudged(t) && StimulusAllowed(t.color, t.number, trials, difficulty)
    ensures TrialsJudged(trials + [t], difficulty)
  {
    AcceptedKeepsNoGreenAfterGreen(trials, t);
  }

  class Game {
    var user: Option<User>
    var gameState: Phase
    var difficulty: Difficulty
    var trials: seq<Trial>
    var currentTrial: nat
    var currentColor: Color
    var currentNumber: Option<int>
    var startTime: int
    var countdown: int
    var memoryNumbers: seq<int>
    var showNumberInput: bool
    /** A stimulus is on screen and its timeout has not been cleared. */
    ghost var stimulusOpen: bool

    /** What every event keeps, the countdown as written included. */
    ghost predicate Consistent()
      reads this
    {
      && currentTrial == |trials| <= TotalTrials(difficulty)
      && TrialsJudged(trials, difficulty)
      && (gameState == Intro ==> trials == [] && memoryNumbers == [] && !showNumberInput)
      && 0 <= countdown <= CountdownStart
      && (stimulusOpen ==>
            && gameState == Playing && !showNumberInput && |trials| < TotalTrials(difficulty)
            && StimulusAllowed(currentColor, currentNumber, trials, difficulty))
    }

    /** The digit list holds exactly the digits of the recorded trials, in order, followed by
        the digit on screen. */
    ghost predicate MemoryMatches()
      reads this
    {
      memoryNumbers == Digits(trials) + (if stimulusOpen then DigitOf(currentNumber) else [])
    }

    ghost predicate Valid()
      reads this
    {
      Consistent() && MemoryMatches()
    }

    /** React has run the effect since the last change: while playing, a stimulus is shown. */
    ghost predicate Settled()
      reads this
    {
      gameState == Playing && !showNumberInput ==> stimulusOpen
    }

    constructor (store: Store)
      requires store.Valid()
      ensures Valid() && Settled()
      ensures user == StoredUser(store.items)
      ensures gameState == Intro && difficulty == Easy && trials == [] && currentTrial == 0
      ensures currentColor == Green && currentNumber.None? && startTime == 0 && countdown == CountdownStart
      ensures memoryNumbers == [] && !showNumberInput
    {
      user := StoredUser(store.items);
      gameState := Intro;
      difficulty := Easy;
      trials := [];
      currentTrial := 0;
      currentColor := Green;
      currentNumber := None;
      startTime := 0;
      countdown := CountdownStart;
      memoryNumbers := [];
      showNumberInput := false;
      stimulusOpen := false;
    }

    /** The difficulty buttons, shown on the intro screen only. */
    method SetDifficulty(d: Difficulty)
      requires Valid() && gameState == Intro
      modifies this
      ensures Valid() && Settled()
      ensures difficulty == d
      ensures user == old(user) && gameState == old(gameState) && trials == old(trials) && currentTrial == old(currentTrial)
      ensures memoryNumbers == old(memoryNumbers) && showNumberInput == old(showNumberInput)
    {
      difficulty := d;
    }

    /** startGame: the countdown screen with trials and digits cleared. */
    method StartGame()
      requires Valid()
      modifies this
      ensures Valid()
      ensures gameState == Ready && countdown == CountdownStart && trials == [] && currentTrial == 0
      ensures memoryNumbers == [] && !stimulusOpen
      ensures user == old(user) && difficulty == old(difficulty) && showNumberInput == old(showNumberInput)
    {
      gameState := Ready;
      countdown := CountdownStart;
      trials := [];
      currentTrial := 0;
      memoryNumbers := [];
      stimulusOpen := false;
    }

    /** One countdown tick; the tick that finds it at 1 or less starts play, and the effect
        then shows the first stimulus. The interval runs on the countdown screen only. */
    method CountdownTick()
      requires Valid() && gameState == Ready
      modifies this
      ensures Valid()
      ensures old(countdown) <= 1 ==> countdown == 0 && gameState == Playing && !stimulusOpen
      ensures old(countdown) > 1 ==> countdown == old(countdown) - 1 && gameState == old(gameState) && stimulusOpen == old(stimulusOpen)
      ensures user == old(user) && difficulty == old(difficulty) && trials == old(trials) && currentTrial == old(currentTrial)
      ensures memoryNumbers == old(memoryNumbers) && showNumberInput == old(showNumberInput)
    {
      if countdown <= 1 {
        countdown := 0;
        gameState := Playing;
        stimulusOpen := false;
      } else {
        countdown := countdown - 1;
      }
    }

    /** The countdown tick as the page is written: its startNextTrial belongs to the first
        render (startGame is memoized with no dependencies), so it draws for an empty game on
        the easy palette, and its digit, if any, is appended to `memoryNumbers` by a functional
        update. Its timeout saw the phase 'intro' and never records; the effect replaces the
        stimulus at once. */
    method CountdownTickAsWritten(draws: seq<real>, coin: real, digitDraw: real, now: int)
      requires Valid() && gameState == Ready && ValidDraws(draws) && 0.0 <= coin < 1.0 && 0.0 <= digitDraw < 1.0
      requires exists i :: 0 <= i < |draws| && !Rejected(RandomColor(Easy, draws[i]), false)
      modifies this
      ensures Consistent()
      ensures old(countdown) <= 1 ==>
                && countdown == 0 && gameState == Playing && !stimulusOpen && startTime == now
                && currentNumber == StimulusNumber(coin, digitDraw)
                && memoryNumbers == old(memoryNumbers) + DigitOf(StimulusNumber(coin, digitDraw))
      ensures old(countdown) > 1 ==>
                countdown == old(countdown) - 1 && gameState == old(gameState) && memoryNumbers == old(memoryNumbers)
                && stimulusOpen == old(stimulusOpen)
      ensures user == old(user) && difficulty == old(difficulty) && trials == old(trials) && currentTrial == old(currentTrial)
      ensures showNumberInput == old(showNumberInput)
    {
      if countdown <= 1 {
        CountdownTick();
        StaleDraw(draws, coin, digitDraw, now);
      } else {
        CountdownTick();
      }
    }

    /** The first render's startNextTrial: it draws on the easy palette with no previous trial
        and appends the digit, if any; the stimulus it shows is replaced at once. */
    method StaleDraw(draws: seq<real>, coin: real, digitDraw: real, now: int)
      requires Consistent() && gameState == Playing && !stimulusOpen && ValidDraws(draws) && 0.0 <= coin < 1.0 && 0.0 <= digitDraw < 1.0
      requires exists i :: 0 <= i < |draws| && !Rejected(RandomColor(Easy, draws[i]), false)
      modifies this
      ensures Consistent() && !stimulusOpen
      ensures currentNumber == StimulusNumber(coin, digitDraw) && startTime == now
      ensures memoryNumbers == old(memoryNumbers) + DigitOf(StimulusNumber(coin, digitDraw))
      ensures countdown == old(countdown) && gameState == old(gameState) && showNumberInput == old(showNumberInput)
      ensures user == old(user) && difficulty == old(difficulty) && trials == old(trials) && currentTrial == old(currentTrial)
    {
      ghost var ts := trials;
      var color, _ := ChooseColor(Easy, false, draws);
      var number := StimulusNumber(coin, digitDraw);
      memoryNumbers := memoryNumbers + DigitOf(number);
      currentColor := color;
      currentNumber := number;
      startTime := now;
      assert trials == ts;
    }

    /** startNextTrial: once the trials are done the answer form opens; otherwise a colour is
        drawn until it is not green right after green, a digit is shown on `coin` < 0.3 and
        appended to `memoryNumbers`, and the stimulus is timed from `now`. */
    method StartNextTrial(draws: seq<real>, coin: real, digitDraw: real, now: int)
      returns (rejected: nat, timeout: Option<nat>)
      requires Valid() && !stimulusOpen && ValidDraws(draws) && 0.0 <= coin < 1.0 && 0.0 <= digitDraw < 1.0
      requires gameState == Playing && !showNumberInput
      requires currentTrial < TotalTrials(difficulty) ==>
                 exists i :: 0 <= i < |draws| && !Rejected(RandomColor(difficulty, draws[i]), LastWasGreen(trials))
      modifies this
      ensures Valid() && Settled()
      ensures old(currentTrial) >= TotalTrials(difficulty) ==>
                showNumberInput && !stimulusOpen && timeout.None? && memoryNumbers == old(memoryNumbers)
      ensures old(currentTrial) < TotalTrials(difficulty) ==>
                && stimulusOpen && startTime == now && timeout == Some(TrialTimeoutMs)
                && rejected < |draws| && currentColor == RandomColor(difficulty, draws[rejected])
                && (forall j :: 0 <= j < rejected ==> Rejected(RandomColor(difficulty, draws[j]), LastWasGreen(trials)))
                && !Rejected(currentColor, LastWasGreen(trials))
                && currentNumber == StimulusNumber(coin, digitDraw)
                && memoryNumbers == old(memoryNumbers) + DigitOf(currentNumber)
                && showNumberInput == old(showNumberInput)
      ensures gameState == Playing
      ensures user == old(user) && difficulty == old(difficulty) && trials == old(trials) && currentTrial == old(currentTrial)
    {
      if currentTrial >= TotalTrials(difficulty) {
        showNumberInput := true;
        rejected, timeout := 0, None;
        return;
      }
      var color;
      color, rejected := ChooseColor(difficulty, LastWasGreen(trials), draws);
      ShowStimulus(color, StimulusNumber(coin, digitDraw), now);
      timeout := Some(TrialTimeoutMs);
    }

    /** The drawn stimulus appears: its digit, if any, joins `memoryNumbers`, and it is timed
        from `now`. */
    method ShowStimulus(color: Color, number: Option<int>, now: int)
      requires Valid() && !stimulusOpen && gameState == Playing && !showNumberInput
      requires currentTrial < TotalTrials(difficulty) && StimulusAllowed(color, number, trials, difficulty)
      modifies this
      ensures Valid() && Settled() && stimulusOpen
      ensures currentColor == color && currentNumber == number && startTime == now
      ensures memoryNumbers == old(memoryNumbers) + DigitOf(number)
      ensures gameState == Playing && showNumberInput == old(showNumberInput)
      ensures user == old(user) && difficulty == old(difficulty) && trials == old(trials) && currentTrial == old(currentTrial)
    {
      assert memoryNumbers == Digits(trials) by {
        assert Digits(trials) + [] == Digits(trials);
      }
      PlaceStimulus(color, number, now);
    }

    /** The field updates of `ShowStimulus`, with what they keep of `Consistent`. */
    method PlaceStimulus(color: Color, number: Option<int>, now: int)
      requires Consistent() && !stimulusOpen && gameState == Playing && !showNumberInput
      requires currentTrial < TotalTrials(difficulty) && StimulusAllowed(color, number, trials, difficulty)
      modifies this
      ensures Consistent() && stimulusOpen
      ensures currentColor == color && currentNumber == number && startTime == now
      ensures memoryNumbers == old(memoryNumbers) + DigitOf(number)
      ensures gameState == Playing && showNumberInput == old(showNumberInput)
      ensures user == old(user) && difficulty == old(difficulty) && trials == old(trials) && currentTrial == old(currentTrial)
    {
      ghost var ts := trials;
      memoryNumbers := memoryNumbers + DigitOf(number);
      currentColor := color;
      currentNumber := number;
      startTime := now;
      stimulusOpen := true;
      assert trials == ts;
    }

    /** The effect on `currentTrial`, `gameState` and `showNumberInput`: while playing and the
        answer form is closed, show the next stimulus. */
    method TrialEffect(draws: seq<real>, coin: real, digitDraw: real, now: int) returns (timeout: Option<nat>)
      requires Valid() && !stimulusOpen && ValidDraws(draws) && 0.0 <= coin < 1.0 && 0.0 <= digitDraw < 1.0
      requires currentTrial < TotalTrials(difficulty) ==>
                 exists i :: 0 <= i < |draws| && !Rejected(RandomColor(difficulty, draws[i]), LastWasGreen(trials))
      modifies this
      ensures Valid() && Settled()
      ensures !(old(gameState) == Playing && !old(showNumberInput)) ==>
                gameState == old(gameState) && showNumberInput == old(showNumberInput) && memoryNumbers == old(memoryNumbers)
                && timeout.None?
      ensures old(gameState) == Playing && !old(showNumberInput) ==>
                (stimulusOpen <==> old(currentTrial) < TotalTrials(difficulty))
                && (showNumberInput <==> old(currentTrial) >= TotalTrials(difficulty))
      ensures user == old(user) && difficulty == old(difficulty) && trials == old(trials) && currentTrial == old(currentTrial)
    {
      if gameState == Playing && !showNumberInput {
        var rejected;
        rejected, timeout := StartNextTrial(draws, coin, digitDraw, now);
      } else {
        timeout := None;
      }
    }

    /** handleTap: ignored unless playing with the answer form closed; otherwise the shown
        colour and digit are recorded as a tap, correct exactly on green. */
    method HandleTap(now: int)
      requires Valid() && Settled()
      modifies this
      ensures Valid()
      ensures !(old(gameState) == Playing && !old(showNumberInput)) ==>
                trials == old(trials) && stimulusOpen == old(stimulusOpen)
      ensures old(gameState) == Playing && !old(showNumberInput) ==>
                trials == old(trials) + [TapTrial(old(currentColor), old(currentNumber), now - old(startTime))]
                && !stimulusOpen
      ensures currentTrial == |trials|
      ensures user == old(user) && gameState == old(gameState) && difficulty == old(difficulty)
      ensures memoryNumbers == old(memoryNumbers) && showNumberInput == old(showNumberInput)
    {
      if gameState != Playing || showNumberInput {
        return;
      }
      var reactionTime := now - startTime;
      var t := TapTrial(currentColor, currentNumber, reactionTime);
      RecordKeepsJudged(trials, difficulty, t);
      DigitsAppend(trials, t);
      trials := trials + [t];
      currentTrial := currentTrial + 1;
      stimulusOpen := false;
    }

    /** The three-second timeout of the shown stimulus: the colour and digit are recorded as
        not tapped, correct exactly when the colour is not green. */
    method TrialTimeout()
      requires Valid() && stimulusOpen
      modifies this
      ensures Valid()
      ensures trials == old(trials) + [TimeoutTrial(old(currentColor), old(currentNumber))] && !stimulusOpen
      ensures currentTrial == |trials|
      ensures user == old(user) && gameState == old(gameState) && difficulty == old(difficulty)
      ensures memoryNumbers == old(memoryNumbers) && showNumberInput == old(showNumberInput)
    {
      if gameState == Playing {
        var t := TimeoutTrial(currentColor, currentNumber);
        RecordKeepsJudged(trials, difficulty, t);
        DigitsAppend(trials, t);
        trials := trials + [t];
        currentTrial := currentTrial + 1;
        stimulusOpen := false;
      }
    }

    /** handleNumberSubmit, on the answer form: score the typed sum and finish. Returns the
        memory accuracy. */
    method SubmitAnswer(answer: Option<int>, store: Store, id: string, createdAt: string) returns (memoryAccuracy: int)
      requires Valid() && store.Valid() && showNumberInput
      modifies this, store
      ensures Valid() && store.Valid()
      ensures memoryAccuracy == MemoryAccuracy(memoryNumbers, answer)
      ensures memoryAccuracy == 100 <==> answer.GetOr(0) == Sum(Digits(trials))
      ensures gameState == Complete && showNumberInput
      ensures store.items == AfterMaybeAdd(old(store.items), DualRecord(user, trials, memoryAccuracy), id, createdAt)
      ensures user == old(user) && trials == old(trials) && memoryNumbers == old(memoryNumbers)
    {
      assert memoryNumbers == Digits(trials) by {
        assert Digits(trials) + [] == Digits(trials);
      }
      memoryAccuracy := MemoryAccuracy(memoryNumbers, answer);
      FinishGame(memoryAccuracy, store, id, createdAt);
    }

    /** finishGame: the results screen, and a record of the trials when there are any. */
    method FinishGame(memoryAccuracy: int, store: Store, id: string, createdAt: string)
      requires Valid() && store.Valid() && !stimulusOpen && 0 <= memoryAccuracy <= 100
      modifies this, store
      ensures Valid() && store.Valid()
      ensures gameState == Complete
      ensures store.items == AfterMaybeAdd(old(store.items), DualRecord(user, trials, memoryAccuracy), id, createdAt)
      ensures user == old(user) && difficulty == old(difficulty) && trials == old(trials) && currentTrial == old(currentTrial)
      ensures memoryNumbers == old(memoryNumbers) && showNumberInput == old(showNumberInput) && !stimulusOpen
    {
      gameState := Complete;
      var record := DualRecord(user, trials, memoryAccuracy);
      if record.Some? {
        var _ := store.AddRecord(record.value, id, createdAt);
      }
    }

    method ResetGame()
      requires Valid()
      modifies this
      ensures Valid() && Settled()
      ensures gameState == Intro && trials == [] && currentTrial == 0 && memoryNumbers == [] && !showNumberInput
      ensures user == old(user) && difficulty == old(difficulty)
    {
      gameState := Intro;
      trials := [];
      currentTrial := 0;
      memoryNumbers := [];
      showNumberInput := false;
      stimulusOpen := false;
    }
  }

  /** In a consistent game every remembered digit is 1-9. */
  lemma MemoryNumbersAreDigits(game: Game)
    requires game.Valid()
    ensures AllDigits(game.memoryNumbers)
  {
    DigitsAreDigits(game.trials);
  }

  /** The finding, as written: with the countdown's own draw, the digit list can gain a digit
      that belongs to no trial. Here the countdown's stimulus shows a digit (coin 0.0) and the
      game has not recorded anything yet. */
  method CountdownDigitScenario(game: Game, draws: seq<real>, digitDraw: real, now: int)
    requires game.Valid() && ValidDraws(draws) && 0.0 <= digitDraw < 1.0
    requires exists i :: 0 <= i < |draws| && !Rejected(RandomColor(Easy, draws[i]), false)
    modifies game
    ensures game.trials == [] && !game.stimulusOpen && game.gameState == Playing
    ensures game.memoryNumbers == [RandomNumber(digitDraw)]
    ensures !game.MemoryMatches()
  {
    game.StartGame();
    game.CountdownTickAsWritten(draws, 0.0, digitDraw, now);
    game.CountdownTickAsWritten(draws, 0.0, digitDraw, now);
    game.CountdownTickAsWritten(draws, 0.0, digitDraw, now);
  }

  /** With a corrected countdown every digit in the list is one the player saw on a recorded
      trial or sees now, so at the answer form the expected sum is that of the trials' digits. */
  method AnswerScenario(game: Game, store: Store, answer: Option<int>, id: string, createdAt: string)
    returns (memoryAccuracy: int)
    requires game.Valid() && store.Valid() && game.showNumberInput
    modifies game, store
    ensures memoryAccuracy == 100 <==> answer.GetOr(0) == Sum(Digits(game.trials))
    ensures game.memoryNumbers == Digits(game.trials)
    ensures |game.memoryNumbers| <= |game.trials|
  {
    memoryAccuracy := game.SubmitAnswer(answer, store, id, createdAt);
  }

  /** The answer form stays on screen after the game completes, and each further submission
      saves another record. */
  method RepeatedSubmitScenario(game: Game, store: Store, answer: Option<int>, id1: string, id2: string, createdAt: string)
    requires game.Valid() && store.Valid() && game.showNumberInput && game.user.Some? && |game.trials| > 0
    modifies game, store
    ensures store.Valid()
    ensures |StoredRecords(store.items)| == |old(StoredRecords(store.items))| + 2
  {
    var first := game.SubmitAnswer(answer, store, id1, createdAt);
    var second := game.SubmitAnswer(answer, store, id2, createdAt);
  }
}
