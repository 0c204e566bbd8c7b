/** The simple reaction page (app/simple/page.tsx): five trials, each a random wait followed by
    a "tap now" screen. React's state setters become field updates of a `Game` object, and every
    timer callback is an event method the environment calls when the timer fires; a method that
    schedules a timer returns the delay it asked for. `Date.now()` is the `now` parameter and a
    draw of `Math.random()` is a parameter `u` in [0, 1). */
module SimpleGame {
  import opened Types
  import opened Evaluation
  import opened Storage

  const TotalTrials: nat := 5
  /** Delay between a tap and the next trial (or the end of the game). */
  const CooldownMs: nat := 2000
  const CountdownStart: int := 3
  const CountdownIntervalMs: nat := 1000

  datatype Phase = Intro | Ready | Waiting | Go | Result | Complete

  /** 2000 + Math.random() * 3000: the wait before the "tap now" screen. */
  function WaitTime(u: real): (ms: real)
    requires 0.0 <= u < 1.0
    ensures 2000.0 <= ms < 5000.0
  {
    assert u * 3000.0 < 3000.0 by {
      assert (1.0 - u) * 3000.0 > 0.0;
    }
    2000.0 + u * 3000.0
  }

  /** The record finishGame hands to addRecord for the given times: none without a user or
      without a single valid tap; otherwise the rounded mean of the times, in mode 'simple'. */
  function SimpleRecord(user: Option<User>, times: seq<int>): (r: Option<NewRecord>)
    ensures r.Some? <==> user.Some? && |times| > 0
    ensures r.Some? ==> r.value.userId == user.value.id && r.value.userName == user.value.name
    ensures r.Some? ==> r.value.mode == Simple
    ensures r.Some? ==> r.value.accuracy.None? && r.value.score.None? && r.value.sleepHours.None?
    ensures r.Some? ==> r.value.reactionTime == Round(Mean(times))
    ensures r.Some? ==> Min(times) <= r.value.reactionTime <= Max(times)
  {
    if user.Some? && |times| > 0 then
      var stats := CalculateStats(times).value;
      StatsAverageBetween(times);
      Some(NewRecord(user.value.id, user.value.name, Simple, stats.average, None, None, None))
    else None
  }

  /** Five equal times are saved as that time. */
  lemma SimpleRecordOfConstant(user: User, times: seq<int>, c: int)
    requires |times| > 0 && forall i :: 0 <= i < |times| ==> times[i] == c
    ensures SimpleRecord(Some(user), times) == Some(NewRecord(user.id, user.name, Simple, c, None, None, None))
  {
    StatsOfConstant(times, c);
  }

  class Game {
    var user: Option<User>
    var gameState: Phase
    var reactionTimes: seq<int>
    var currentTrial: nat
    var startTime: int
    var tooEarly: bool
    var countdown: int

    ghost predicate Valid()
      reads this
    {
      currentTrial < TotalTrials && 0 <= countdown <= CountdownStart
    }

    /** The page as first rendered; the mount effect reads the user from the store. */
    constructor (store: Store)
      requires store.Valid()
      ensures Valid()
      ensures user == StoredUser(store.items)
      ensures gameState == Intro && reactionTimes == [] && currentTrial == 0
      ensures startTime == 0 && !tooEarly && countdown == CountdownStart
    {
      user := StoredUser(store.items);
      gameState := Intro;
      reactionTimes := [];
      currentTrial := 0;
      startTime := 0;
      tooEarly := false;
      countdown := CountdownStart;
    }

    /** startGame: the countdown screen, counting down from 3 once a second. */
    method StartGame()
      requires Valid()
      modifies this
      ensures Valid()
      ensures gameState == Ready && countdown == CountdownStart
      ensures user == old(user) && reactionTimes == old(reactionTimes) && currentTrial == old(currentTrial)
      ensures startTime == old(startTime) && tooEarly == old(tooEarly)
    {
      gameState := Ready;
      countdown := CountdownStart;
    }

    /** One tick of the countdown interval. The tick that finds the counter at 1 or less sets it
        to 0 and starts the first trial, whose wait it returns. */
    method CountdownTick(u: real) returns (waitTime: Option<real>)
      requires Valid() && 0.0 <= u < 1.0
      modifies this
      ensures Valid()
      ensures old(countdown) <= 1 ==> countdown == 0 && gameState == Waiting && !tooEarly && waitTime == Some(WaitTime(u))
      ensures old(countdown) > 1 ==> countdown == old(countdown) - 1 && gameState == old(gameState) && tooEarly == old(tooEarly) && waitTime.None?
      ensures user == old(user) && reactionTimes == old(reactionTimes) && currentTrial == old(currentTrial)
      ensures startTime == old(startTime)
    {
      if countdown <= 1 {
        countdown := 0;
        var w := StartTrial(u);
        waitTime := Some(w);
      } else {
        countdown := countdown - 1;
        waitTime := None;
      }
    }

    /** startTrial: the waiting screen, with the too-early mark cleared; the go timer is set to
        fire after the returned wait. */
    method StartTrial(u: real) returns (waitTime: real)
      requires Valid() && 0.0 <= u < 1.0
      modifies this
      ensures Valid()
      ensures gameState == Waiting && !tooEarly && waitTime == WaitTime(u)
      ensures 2000.0 <= waitTime < 5000.0
      ensures user == old(user) && reactionTimes == old(reactionTimes) && currentTrial == old(currentTrial)
      ensures startTime == old(startTime) && countdown == old(countdown)
    {
      gameState := Waiting;
      tooEarly := false;
      waitTime := WaitTime(u);
    }

    /** The go timer: stamp the start time and show "tap now". The source never cancels it, so
        it fires whatever the phase is by then. */
    method GoTimerFired(now: int)
      requires Valid()
      modifies this
      ensures Valid()
      ensures gameState == Go && startTime == now
      ensures user == old(user) && reactionTimes == old(reactionTimes) && currentTrial == old(currentTrial)
      ensures tooEarly == old(tooEarly) && countdown == old(countdown)
    {
      startTime := now;
      gameState := Go;
    }

    /** handleTap. While waiting the tap is an early tap: it is marked and nothing is recorded.
        On the go screen the elapsed time, with no lower bound, is appended. Both schedule the
        cooldown, whose delay is returned; in any other phase the tap does nothing. */
    method HandleTap(now: int) returns (cooldown: Option<nat>)
      requires Valid()
      modifies this
      ensures Valid()
      ensures old(gameState) == Waiting ==>
                tooEarly && gameState == Waiting && reactionTimes == old(reactionTimes) && cooldown == Some(CooldownMs)
      ensures old(gameState) == Go ==>
                reactionTimes == old(reactionTimes) + [now - old(startTime)] && gameState == Result
                && tooEarly == old(tooEarly) && cooldown == Some(CooldownMs)
      ensures old(gameState) != Waiting && old(gameState) != Go ==>
                gameState == old(gameState) && reactionTimes == old(reactionTimes) && tooEarly == old(tooEarly)
                && cooldown.None?
      ensures user == old(user) && currentTrial == old(currentTrial) && startTime == old(startTime)
      ensures countdown == old(countdown)
    {
      if gameState == Waiting {
        tooEarly := true;
        cooldown := Some(CooldownMs);
        return;
      }
      if gameState == Go {
        var reactionTime := now - startTime;
        reactionTimes := reactionTimes + [reactionTime];
        gameState := Result;
        cooldown := Some(CooldownMs);
      } else {
        cooldown := None;
      }
    }

    /** The cooldown after a tap: the next trial starts while fewer than four trials are behind
        the current one, otherwise the game ends. `u` is the next trial's draw; `id` and
        `createdAt` are what addRecord would generate. */
    method CooldownElapsed(u: real, store: Store, id: string, createdAt: string) returns (waitTime: Option<real>)
      requires Valid() && store.Valid() && 0.0 <= u < 1.0
      modifies this, store
      ensures Valid() && store.Valid()
      ensures old(currentTrial) < TotalTrials - 1 ==>
                currentTrial == old(currentTrial) + 1 && gameState == Waiting && !tooEarly
                && waitTime == Some(WaitTime(u)) && store.items == old(store.items)
      ensures old(currentTrial) >= TotalTrials - 1 ==>
                currentTrial == old(currentTrial) && gameState == Complete && tooEarly == old(tooEarly)
                && waitTime.None?
                && store.items == AfterMaybeAdd(old(store.items), SimpleRecord(user, reactionTimes), id, createdAt)
      ensures user == old(user) && reactionTimes == old(reactionTimes) && startTime == old(startTime)
      ensures countdown == old(countdown)
    {
      if currentTrial < TotalTrials - 1 {
        currentTrial := currentTrial + 1;
        var w := StartTrial(u);
        waitTime := Some(w);
      } else {
        FinishGame(store, id, createdAt);
        waitTime := None;
      }
    }

    /** finishGame: the results screen, and a record of the current times when there is one. */
    method FinishGame(store: Store, id: string, createdAt: string)
      requires Valid() && store.Valid()
      modifies this, store
      ensures Valid() && store.Valid()
      ensures gameState == Complete
      ensures store.items == AfterMaybeAdd(old(store.items), SimpleRecord(user, reactionTimes), id, createdAt)
      ensures user == old(user) && reactionTimes == old(reactionTimes) && currentTrial == old(currentTrial)
      ensures startTime == old(startTime) && tooEarly == old(tooEarly) && countdown == old(countdown)
    {
      FinishWith(reactionTimes, store, id, createdAt);
    }

    /** The finishGame of a render whose `reactionTimes` was `times`: the results screen, and a
        record of `times` when there is one. */
    method FinishWith(times: seq<int>, store: Store, id: string, createdAt: string)
      requires Valid() && store.Valid()
      modifies this, store
      ensures Valid() && store.Valid()
      ensures gameState == Complete
      ensures store.items == AfterMaybeAdd(old(store.items), SimpleRecord(user, times), id, createdAt)
      ensures user == old(user) && reactionTimes == old(reactionTimes) && currentTrial == old(currentTrial)
      ensures startTime == old(startTime) && tooEarly == old(tooEarly) && countdown == old(countdown)
    {
      gameState := Complete;
      var record := SimpleRecord(user, times);
      if record.Some? {
        var _ := store.AddRecord(record.value, id, createdAt);
      }
    }

    /** The cooldown as the page is written: the callback belongs to the render of the tap that
        queued it, and so does the finishGame it calls; `captured` is that render's
        `reactionTimes`, the list from before the tap. */
    method CooldownElapsedAsWritten(captured: seq<int>, u: real, store: Store, id: string, createdAt: string)
      returns (waitTime: Option<real>)
      requires Valid() && store.Valid() && 0.0 <= u < 1.0
      modifies this, store
      ensures Valid() && store.Valid()
      ensures old(currentTrial) < TotalTrials - 1 ==>
                currentTrial == old(currentTrial) + 1 && gameState == Waiting && !tooEarly
                && waitTime == Some(WaitTime(u)) && store.items == old(store.items)
      ensures old(currentTrial) >= TotalTrials - 1 ==>
                currentTrial == old(currentTrial) && gameState == Complete && tooEarly == old(tooEarly)
                && waitTime.None?
                && store.items == AfterMaybeAdd(old(store.items), SimpleRecord(user, captured), id, createdAt)
      ensures user == old(user) && reactionTimes == old(reactionTimes) && startTime == old(startTime)
      ensures countdown == old(countdown)
    {
      if currentTrial < TotalTrials - 1 {
        waitTime := CooldownElapsed(u, store, id, createdAt);
      } else {
        FinishWith(captured, store, id, createdAt);
        waitTime := None;
      }
    }

    /** resetGame: back to the intro screen with no times. */
    method ResetGame()
      requires Valid()
      modifies this
      ensures Valid()
      ensures gameState == Intro && reactionTimes == [] && currentTrial == 0 && !tooEarly
      ensures user == old(user) && startTime == old(startTime) && countdown == old(countdown)
    {
      gameState := Intro;
      reactionTimes := [];
      currentTrial := 0;
      tooEarly := false;
    }
  }

  /** From the intro screen, three countdown ticks reach the first trial's waiting screen. */
  method CountdownScenario(game: Game, u1: real, u2: real, u3: real)
    requires game.Valid() && game.gameState == Intro
    requires 0.0 <= u1 < 1.0 && 0.0 <= u2 < 1.0 && 0.0 <= u3 < 1.0
    modifies game
    ensures game.Valid() && game.gameState == Waiting && game.countdown == 0 && !game.tooEarly
    ensures game.reactionTimes == old(game.reactionTimes) && game.currentTrial == old(game.currentTrial)
  {
    game.StartGame();
    var w1 := game.CountdownTick(u1);
    assert w1.None? && game.countdown == 2;
    var w2 := game.CountdownTick(u2);
    assert w2.None? && game.countdown == 1;
    var w3 := game.CountdownTick(u3);
    assert w3 == Some(WaitTime(u3));
  }

  /** The last trial ends in a hit: its time is part of the saved record. */
  method LastTrialScenario(game: Game, store: Store, now: int, u: real, id: string, createdAt: string)
    requires game.Valid() && store.Valid() && 0.0 <= u < 1.0
    requires game.gameState == Go && game.currentTrial == TotalTrials - 1
    modifies game, store
    ensures game.gameState == Complete
    ensures game.reactionTimes == old(game.reactionTimes) + [now - old(game.startTime)]
    ensures store.items == AfterMaybeAdd(old(store.items),
              SimpleRecord(game.user, old(game.reactionTimes) + [now - old(game.startTime)]), id, createdAt)
  {
    var cooldown := game.HandleTap(now);
    assert cooldown == Some(CooldownMs);
    var w := game.CooldownElapsed(u, store, id, createdAt);
  }

  /** The record the final cooldown saves as the page is written. The cooldown callback was
      created by the handleTap of the render in which the last tap arrived, and the finishGame
      it calls belongs to that same render: its `reactionTimes` is the list from before the tap.
      `before` is that list; `last` is the time the last tap appended, if it was a hit. */
  function FinalRecordAsWritten(user: Option<User>, before: seq<int>, last: Option<int>): Option<NewRecord>
  {
    SimpleRecord(user, before)
  }

  /** The record the final cooldown was meant to save: every time shown on the results screen. */
  function FinalRecordIntended(user: Option<User>, before: seq<int>, last: Option<int>): Option<NewRecord>
  {
    SimpleRecord(user, before + (if last.Some? then [last.value] else []))
  }

  /** The page as written: a hit on the last trial is shown on the results screen, but the
      cooldown saves the record of the times from before it. */
  method StaleLastTrialScenario(game: Game, store: Store, now: int, u: real, id: string, createdAt: string)
    requires game.Valid() && store.Valid() && 0.0 <= u < 1.0
    requires game.gameState == Go && game.currentTrial == TotalTrials - 1
    modifies game, store
    ensures game.gameState == Complete
    ensures game.reactionTimes == old(game.reactionTimes) + [now - old(game.startTime)]
    ensures store.items == AfterMaybeAdd(old(store.items),
              FinalRecordAsWritten(game.user, old(game.reactionTimes), Some(now - old(game.startTime))), id, createdAt)
  {
    var captured := game.reactionTimes;
    var cooldown := game.HandleTap(now);
    assert cooldown == Some(CooldownMs);
    var w := game.CooldownElapsedAsWritten(captured, u, store, id, createdAt);
  }

  /** A game whose only valid tap is the last one saves nothing as written, though the results
      screen shows that time; the intended record holds it. */
  lemma StaleFinishDropsLoneHit(user: User, t: int)
    ensures FinalRecordAsWritten(Some(user), [], Some(t)).None?
    ensures FinalRecordIntended(Some(user), [], Some(t)) == Some(NewRecord(user.id, user.name, Simple, t, None, None, None))
  {
    assert [] + [t] == [t];
    SimpleRecordOfConstant(user, [t], t);
  }

  /** Four taps at 200 ms and a last one at 300 ms: saved as 200 ms as written, 220 ms as intended. */
  lemma StaleFinishExample(user: User)
    ensures FinalRecordAsWritten(Some(user), [200, 200, 200, 200], Some(300)).value.reactionTime == 200
    ensures FinalRecordIntended(Some(user), [200, 200, 200, 200], Some(300)).value.reactionTime == 220
  {
    SimpleRecordOfConstant(user, [200, 200, 200, 200], 200);
    assert [200, 200, 200, 200] + [300] == [200, 200, 200, 200, 300];
    assert Sum([200, 200, 200, 200, 300]) == 1100;
  }

  /** When the last trial was an early tap nothing was appended, and the two records agree. */
  lemma StaleFinishHarmlessAfterEarlyTap(user: Option<User>, before: seq<int>)
    ensures FinalRecordAsWritten(user, before, None) == FinalRecordIntended(user, before, None)
  {
    assert before + [] == before;
  }
}
