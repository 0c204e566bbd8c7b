/** The color-judgement page (app/color/page.tsx): twenty stimuli, tap on green only. A stimulus
    ends with a tap or after three seconds; React's effect on `currentTrial` and `gameState` then
    shows the next one. Each of these is an event method, and the ghost field `stimulusOpen`
    says that a stimulus is on screen and its timeout is pending. */
module ColorGame {
  import opened Types
  import opened Evaluation
  import opened Storage
  import opened ColorRules

  const TotalTrials: nat := 20
  /** How long a stimulus stays on screen without a tap. */
  const TrialTimeoutMs: nat := 3000
  const CountdownStart: int := 3

  datatype Phase = Intro | Ready | Playing | Complete

  /** The speed part of the score: up to 50 points, 10 ms per point, none without a time. */
  function SpeedPoints(avgTime: real): (p: real)
    ensures 0.0 <= p <= 50.0
    ensures avgTime <= 0.0 || avgTime >= 500.0 ==> p == 0.0
  {
    if avgTime > 0.0 then (if 50.0 - avgTime / 10.0 > 0.0 then 50.0 - avgTime / 10.0 else 0.0) else 0.0
  }

  /** finishGame's score: half of the accuracy plus the speed points, rounded. */
  function ColorScoreOf(accuracy: real, avgTime: real): (score: int)
    requires 0.0 <= accuracy <= 100.0
    ensures 0 <= score <= 100
    ensures score == Round(accuracy / 100.0 * 50.0 + SpeedPoints(avgTime))
  {
    Round(accuracy / 100.0 * 50.0 + SpeedPoints(avgTime))
  }

  /** A slower average never scores more, and a higher accuracy never scores less. */
  lemma ColorScoreMonotone(acc1: real, acc2: real, avg1: real, avg2: real)
    requires 0.0 <= acc1 <= acc2 <= 100.0
    requires 0.0 < avg1 <= avg2
    ensures ColorScoreOf(acc1, avg2) <= ColorScoreOf(acc2, avg1)
  {
    RoundMonotone(acc1 / 100.0 * 50.0 + SpeedPoints(avg2), acc2 / 100.0 * 50.0 + SpeedPoints(avg1));
  }

  /** Every stimulus right at 200 ms on average scores 80; every stimulus right with no green
      tap at all scores 50. */
  lemma ColorScoreExamples()
    ensures ColorScoreOf(100.0, 200.0) == 80
    ensures ColorScoreOf(100.0, 0.0) == 50
    ensures ColorScoreOf(0.0, 600.0) == 0
  {
  }

  /** The record finishGame hands to addRecord: none without a user or without a single trial;
      otherwise the rounded average of the saved times, the rounded accuracy and the score. */
  function ColorRecord(user: Option<User>, trials: seq<Trial>): (r: Option<NewRecord>)
    ensures r.Some? <==> user.Some? && |trials| > 0
    ensures r.Some? ==> r.value.userId == user.value.id && r.value.userName == user.value.name
    ensures r.Some? ==> r.value.mode == Color && r.value.sleepHours.None?
    ensures r.Some? ==> r.value.reactionTime == Round(AverageTime(SavedReactionTimes(trials)))
    ensures r.Some? ==> r.value.accuracy == Some(Round(Accuracy(trials)))
    ensures r.Some? ==> 0 <= r.value.accuracy.value <= 100
    ensures r.Some? && |trials| <= TotalTrials ==> (r.value.accuracy.value == 100 <==> |CorrectTrials(trials)| == |trials|)
    ensures r.Some? ==> r.value.score == Some(ColorScoreOf(Accuracy(trials), AverageTime(SavedReactionTimes(trials))))
    ensures r.Some? ==> 0 <= r.value.score.value <= 100
  {
    if user.Some? && |trials| > 0 then
      var accuracy := Accuracy(trials);
      var avgTime := AverageTime(SavedReactionTimes(trials));
      RoundOfPercentage(trials);
      Some(NewRecord(user.value.id, user.value.name, Color, Round(avgTime), Some(Round(accuracy)),
                     Some(ColorScoreOf(accuracy, avgTime)), None))
    else None
  }

  class Game {
    var user: Option<User>
    var gameState: Phase
    var difficulty: Difficulty
    var trials: seq<Trial>
    var currentTrial: nat
    var currentColor: Color
    var startTime: int
    var countdown: int
    /** A stimulus is on screen and its timeout has not been cleared. */
    ghost var stimulusOpen: bool

    ghost predicate Valid()
      reads this
    {
      && currentTrial == |trials| <= TotalTrials
      && (forall i :: 0 <= i < |trials| ==>
            WellJudged(trials[i]) && trials[i].number.None? && InPalette(trials[i].color, difficulty))
      && NoGreenAfterGreen(trials)
      && (gameState == Intro ==> trials == [])
      && 0 <= countdown <= CountdownStart
      && (stimulusOpen ==>
            && gameState == Playing && |trials| < TotalTrials
            && InPalette(currentColor, difficulty) && !Rejected(currentColor, LastWasGreen(trials)))
    }

    /** React has run the effect since the last change: while playing, a stimulus is shown. */
    ghost predicate Settled()
      reads this
    {
      gameState == Playing ==> stimulusOpen
    }

    constructor (store: Store)
      requires store.Valid()
      ensures Valid() && Settled()
      ensures user == StoredUser(store.items)
      ensures gameState == Intro && difficulty == Easy && trials == [] && currentTrial == 0
      ensures currentColor == Green && startTime == 0 && countdown == CountdownStart
    {
      user := StoredUser(store.items);
      gameState := Intro;
      difficulty := Easy;
      trials := [];
      currentTrial := 0;
      currentColor := Green;
      startTime := 0;
      countdown := CountdownStart;
      stimulusOpen := false;
    }

    /** The difficulty buttons, shown on the intro screen only. */
    method SetDifficulty(d: Difficulty)
      requires Valid() && gameState == Intro
      modifies this
      ensures Valid() && Settled()
      ensures difficulty == d
      ensures user == old(user) && gameState == old(gameState) && trials == old(trials) && currentTrial == old(currentTrial)
      ensures currentColor == old(currentColor) && startTime == old(startTime) && countdown == old(countdown)
    {
      difficulty := d;
    }

    /** startGame: the countdown screen with the trials cleared. */
    method StartGame()
      requires Valid()
      modifies this
      ensures Valid() && Settled()
      ensures gameState == Ready && countdown == CountdownStart && trials == [] && currentTrial == 0
      ensures user == old(user) && difficulty == old(difficulty) && currentColor == old(currentColor)
      ensures startTime == old(startTime)
    {
      gameState := Ready;
      countdown := CountdownStart;
      trials := [];
      currentTrial := 0;
      stimulusOpen := false;
    }

    /** One tick of the countdown interval; the tick that finds it at 1 or less starts play.
        The first stimulus is then shown by the effect (see `TrialEffect`). */
    method CountdownTick()
      requires Valid()
      modifies this
      ensures Valid()
      ensures old(countdown) <= 1 ==> countdown == 0 && gameState == Playing && !stimulusOpen
      ensures old(countdown) > 1 ==> countdown == old(countdown) - 1 && gameState == old(gameState) && stimulusOpen == old(stimulusOpen)
      ensures user == old(user) && difficulty == old(difficulty) && trials == old(trials) && currentTrial == old(currentTrial)
      ensures currentColor == old(currentColor) && startTime == old(startTime)
    {
      if countdown <= 1 {
        countdown := 0;
        gameState := Playing;
        stimulusOpen := false;
      } else {
        countdown := countdown - 1;
      }
    }

    /** startNextTrial: after twenty trials the game ends; otherwise a colour is drawn until
        it is not green right after green, shown, and timed from `now`. `draws` are the loop's
        successive values of Math.random(). Returns how many draws were thrown away and the
        delay of the timeout it sets. */
    method StartNextTrial(draws: seq<real>, now: int, store: Store, id: string, createdAt: string)
      returns (rejected: nat, timeout: Option<nat>)
      requires Valid() && store.Valid() && !stimulusOpen && ValidDraws(draws)
      requires currentTrial < TotalTrials ==>
                 exists i :: 0 <= i < |draws| && !Rejected(RandomColor(difficulty, draws[i]), LastWasGreen(trials))
      modifies this, store
      ensures Valid() && Settled() && store.Valid()
      ensures old(currentTrial) >= TotalTrials ==>
                gameState == Complete && timeout.None? && !stimulusOpen
                && store.items == AfterMaybeAdd(old(store.items), ColorRecord(user, trials), id, createdAt)
      ensures old(currentTrial) < TotalTrials ==>
                && gameState == Playing && stimulusOpen && startTime == now && timeout == Some(TrialTimeoutMs)
                && rejected < |draws| && currentColor == RandomColor(difficulty, draws[rejected])
                && (forall j :: 0 <= j < rejected ==> Rejected(RandomColor(difficulty, draws[j]), LastWasGreen(trials)))
                && !Rejected(currentColor, LastWasGreen(trials))
                && store.items == old(store.items)
      ensures user == old(user) && difficulty == old(difficulty) && trials == old(trials) && currentTrial == old(currentTrial)
      ensures countdown == old(countdown)
    {
      if currentTrial >= TotalTrials {
        FinishGame(store, id, createdAt);
        rejected, timeout := 0, None;
        return;
      }
      var color;
      color, rejected := ChooseColor(difficulty, LastWasGreen(trials), draws);
      currentColor := color;
      gameState := Playing;
      startTime := now;
      stimulusOpen := true;
      timeout := Some(TrialTimeoutMs);
    }

    /** The effect on `currentTrial` and `gameState`: while playing, show the next stimulus. */
    method TrialEffect(draws: seq<real>, now: int, store: Store, id: string, createdAt: string)
      returns (timeout: Option<nat>)
      requires Valid() && store.Valid() && !stimulusOpen && ValidDraws(draws)
      requires currentTrial < TotalTrials ==>
                 exists i :: 0 <= i < |draws| && !Rejected(RandomColor(difficulty, draws[i]), LastWasGreen(trials))
      modifies this, store
      ensures Valid() && Settled() && store.Valid()
      ensures old(gameState) != Playing ==>
                gameState == old(gameState) && timeout.None? && store.items == old(store.items)
      ensures old(gameState) == Playing && old(currentTrial) < TotalTrials ==>
                gameState == Playing && stimulusOpen && startTime == now && store.items == old(store.items)
      ensures old(gameState) == Playing && old(currentTrial) >= TotalTrials ==>
                gameState == Complete && store.items == AfterMaybeAdd(old(store.items), ColorRecord(user, trials), id, createdAt)
      ensures user == old(user) && difficulty == old(difficulty) && trials == old(trials) && currentTrial == old(currentTrial)
    {
      if gameState == Playing {
        var rejected;
        rejected, timeout := StartNextTrial(draws, now, store, id, createdAt);
      } else {
        timeout := None;
      }
    }

    /** handleTap: outside play it does nothing; otherwise it records the shown colour as a tap
        `now - startTime` ms after the stimulus, which is correct exactly on green. */
    method HandleTap(now: int)
      requires Valid() && Settled()
      modifies this
      ensures Valid()
      ensures old(gameState) != Playing ==> trials == old(trials) && stimulusOpen == old(stimulusOpen)
      ensures old(gameState) == Playing ==>
                trials == old(trials) + [TapTrial(old(currentColor), None, now - old(startTime))] && !stimulusOpen
      ensures currentTrial == |trials|
      ensures user == old(user) && gameState == old(gameState) && difficulty == old(difficulty)
      ensures currentColor == old(currentColor) && startTime == old(startTime) && countdown == old(countdown)
    {
      if gameState != Playing {
        return;
      }
      var reactionTime := now - startTime;
      var t := TapTrial(currentColor, None, reactionTime);
      AcceptedKeepsNoGreenAfterGreen(trials, t);
      trials := trials + [t];
      currentTrial := currentTrial + 1;
      stimulusOpen := false;
    }

    /** The three-second timeout of the shown stimulus (the effect's cleanup clears it as soon
        as the trial count or the phase changes, so it fires only while the stimulus is open):
        it records the colour as not tapped, which is correct exactly when it is not green. */
    method TrialTimeout()
      requires Valid() && stimulusOpen
      modifies this
      ensures Valid()
      ensures trials == old(trials) + [TimeoutTrial(old(currentColor), None)] && !stimulusOpen
      ensures currentTrial == |trials|
      ensures user == old(user) && gameState == old(gameState) && difficulty == old(difficulty)
      ensures currentColor == old(currentColor) && startTime == old(startTime) && countdown == old(countdown)
    {
      if gameState == Playing {
        var t := TimeoutTrial(currentColor, None);
        AcceptedKeepsNoGreenAfterGreen(trials, t);
        trials := trials + [t];
        currentTrial := currentTrial + 1;
        stimulusOpen := false;
      }
    }

    /** finishGame: the results screen, and a record of the trials when there are any. */
    method FinishGame(store: Store, id: string, createdAt: string)
      requires Valid() && store.Valid()
      modifies this, store
      ensures Valid() && Settled() && store.Valid()
      ensures gameState == Complete && !stimulusOpen
      ensures store.items == AfterMaybeAdd(old(store.items), ColorRecord(user, trials), id, createdAt)
      ensures user == old(user) && difficulty == old(difficulty) && trials == old(trials) && currentTrial == old(currentTrial)
      ensures currentColor == old(currentColor) && startTime == old(startTime) && countdown == old(countdown)
    {
      gameState := Complete;
      stimulusOpen := false;
      var record := ColorRecord(user, trials);
      if record.Some? {
        var _ := store.AddRecord(record.value, id, createdAt);
      }
    }

    method ResetGame()
      requires Valid()
      modifies this
      ensures Valid() && Settled()
      ensures gameState == Intro && trials == [] && currentTrial == 0
      ensures user == old(user) && difficulty == old(difficulty) && currentColor == old(currentColor)
      ensures startTime == old(startTime) && countdown == old(countdown)
    {
      gameState := Intro;
      trials := [];
      currentTrial := 0;
      stimulusOpen := false;
    }
  }

  /** One stimulus from start to end: a green stimulus tapped after 250 ms is a correct trial
      with that time, and a red stimulus left alone is a correct trial without one. */
  method OneTrialScenario(game: Game, store: Store, draws: seq<real>, now: int, id: string, createdAt: string)
    requires game.Valid() && game.gameState == Playing && !game.stimulusOpen && store.Valid()
    requires game.currentTrial < TotalTrials && ValidDraws(draws)
    requires exists i :: 0 <= i < |draws| && !Rejected(RandomColor(game.difficulty, draws[i]), LastWasGreen(game.trials))
    modifies game, store
    ensures game.Valid() && store.items == old(store.items)
    ensures |game.trials| == |old(game.trials)| + 1
    ensures game.trials[|game.trials| - 1].correct
    ensures game.trials[|game.trials| - 1].reactionTime == if game.trials[|game.trials| - 1].color == Green then Some(250) else None
  {
    var timeout := game.TrialEffect(draws, now, store, id, createdAt);
    if game.currentColor == Green {
      game.HandleTap(now + 250);
    } else {
      game.TrialTimeout();
    }
  }
}
