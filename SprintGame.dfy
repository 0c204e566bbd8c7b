/** The sprint-start page (app/sprint/page.tsx): five trials of "on your marks" (ready), "set"
    and a random wait before "go". A tap before "go", or less than 100 ms after it, is a false
    start. As on the simple page, timer callbacks are event methods, a method that schedules a
    timer returns its delay, `now` is `Date.now()` and `u` a draw of `Math.random()`. */
module SprintGame {
  import opened Types
  import opened Evaluation
  import opened Storage

  const TotalTrials: nat := 5
  /** Delay from startGame to the first trial. */
  const StartDelayMs: nat := 2000
  /** How long "on your marks" lasts before "set". */
  const ReadyMs: nat := 1500
  /** A time below this many milliseconds after "go" is a false start. */
  const MinValidMs: int := 100
  const FalseStartCooldownMs: nat := 2500
  const CooldownMs: nat := 2000

  datatype Phase = Intro | Ready | Set | Go | Result | Complete

  /** 1000 + Math.random() * 2000: the wait between "set" and "go". */
  function SetTime(u: real): (ms: real)
    requires 0.0 <= u < 1.0
    ensures 1000.0 <= ms < 3000.0
  {
    assert u * 2000.0 < 2000.0 by {
      assert (1.0 - u) * 2000.0 > 0.0;
    }
    1000.0 + u * 2000.0
  }

  /** How handleTap judges a tap `elapsed` ms after the start time in a given phase. */
  datatype Outcome = FalseStart | Counted(time: int) | Ignored

  function TapOutcome(phase: Phase, elapsed: int): (o: Outcome)
    ensures o.FalseStart? <==> phase == Ready || phase == Set || (phase == Go && elapsed < MinValidMs)
    ensures o.Counted? <==> phase == Go && elapsed >= MinValidMs
    ensures o.Counted? ==> o.time == elapsed && o.time >= MinValidMs
    ensures o.Ignored? <==> phase == Intro || phase == Result || phase == Complete
  {
    match phase
    case Ready => FalseStart
    case Set => FalseStart
    case Go => if elapsed < MinValidMs then FalseStart else Counted(elapsed)
    case Intro => Ignored
    case Result => Ignored
    case Complete => Ignored
  }

  /** The cooldown a tap schedules: longer after a false start, none for an ignored tap. */
  function CooldownAfter(o: Outcome): (ms: Option<nat>)
    ensures ms.None? <==> o.Ignored?
    ensures o.FalseStart? ==> ms == Some(FalseStartCooldownMs)
    ensures o.Counted? ==> ms == Some(CooldownMs)
  {
    match o
    case FalseStart => Some(FalseStartCooldownMs)
    case Counted(_) => Some(CooldownMs)
    case Ignored => None
  }

  /** 99 ms after "go" is still a false start; 100 ms is the fastest counted time. */
  lemma FalseStartBoundary()
    ensures TapOutcome(Go, 99) == FalseStart
    ensures TapOutcome(Go, 100) == Counted(100)
    ensures CooldownAfter(TapOutcome(Go, 99)) == Some(2500) && CooldownAfter(TapOutcome(Go, 100)) == Some(2000)
  {
  }

  /** Every time the sprint page keeps is at least 100 ms. */
  predicate AllCounted(times: seq<int>)
  {
    forall i :: 0 <= i < |times| ==> times[i] >= MinValidMs
  }

  /** The record finishGame hands to addRecord: the rounded mean of the kept times, in mode 'sprint'. */
  function SprintRecord(user: Option<User>, times: seq<int>): (r: Option<NewRecord>)
    ensures r.Some? <==> user.Some? && |times| > 0
    ensures r.Some? ==> r.value.userId == user.value.id && r.value.userName == user.value.name
    ensures r.Some? ==> r.value.mode == Sprint
    ensures r.Some? ==> r.value.accuracy.None? && r.value.score.None? && r.value.sleepHours.None?
    ensures r.Some? ==> r.value.reactionTime == Round(Mean(times))
    ensures r.Some? ==> Min(times) <= r.value.reactionTime <= Max(times)
    ensures r.Some? && AllCounted(times) ==> r.value.reactionTime >= MinValidMs
  {
    if user.Some? && |times| > 0 then
      var stats := CalculateStats(times).value;
      StatsAverageBetween(times);
      Some(NewRecord(user.value.id, user.value.name, Sprint, stats.average, None, None, None))
    else None
  }

  class Game {
    var user: Option<User>
    var gameState: Phase
    var reactionTimes: seq<int>
    var currentTrial: nat
    var startTime: int
    var falseStart: bool

    ghost predicate Valid()
      reads this
    {
      currentTrial < TotalTrials && AllCounted(reactionTimes)
    }

    constructor (store: Store)
      requires store.Valid()
      ensures Valid()
      ensures user == StoredUser(store.items)
      ensures gameState == Intro && reactionTimes == [] && currentTrial == 0
      ensures startTime == 0 && !falseStart
    {
      user := StoredUser(store.items);
      gameState := Intro;
      reactionTimes := [];
      currentTrial := 0;
      startTime := 0;
      falseStart := false;
    }

    /** startGame: the ready screen; the first trial starts after the returned delay. */
    method StartGame() returns (delay: nat)
      requires Valid()
      modifies this
      ensures Valid()
      ensures gameState == Ready && delay == StartDelayMs
      ensures user == old(user) && reactionTimes == old(reactionTimes) && currentTrial == old(currentTrial)
      ensures startTime == old(startTime) && falseStart == old(falseStart)
    {
      gameState := Ready;
      delay := StartDelayMs;
    }

    /** startTrial: "on your marks" with the false-start mark cleared; "set" follows after the
        returned delay. */
    method StartTrial() returns (delay: nat)
      requires Valid()
      modifies this
      ensures Valid()
      ensures gameState == Ready && !falseStart && delay == ReadyMs
      ensures user == old(user) && reactionTimes == old(reactionTimes) && currentTrial == old(currentTrial)
      ensures startTime == old(startTime)
    {
      gameState := Ready;
      falseStart := false;
      delay := ReadyMs;
    }

    /** The "set" timer; it schedules "go" after the returned random wait. */
    method SetTimerFired(u: real) returns (delay: real)
      requires Valid() && 0.0 <= u < 1.0
      modifies this
      ensures Valid()
      ensures gameState == Set && delay == SetTime(u)
      ensures 1000.0 <= delay < 3000.0
      ensures user == old(user) && reactionTimes == old(reactionTimes) && currentTrial == old(currentTrial)
      ensures startTime == old(startTime) && falseStart == old(falseStart)
    {
      gameState := Set;
      delay := SetTime(u);
    }

    /** The "go" timer: stamp the start time (the start sound is an empty stub). */
    method GoTimerFired(now: int)
      requires Valid()
      modifies this
      ensures Valid()
      ensures gameState == Go && startTime == now
      ensures user == old(user) && reactionTimes == old(reactionTimes) && currentTrial == old(currentTrial)
      ensures falseStart == old(falseStart)
    {
      startTime := now;
      gameState := Go;
    }

    /** handleTap: a false start marks the trial and records nothing, a counted tap appends its
        time; both show the result and schedule the returned cooldown. */
    method HandleTap(now: int) returns (cooldown: Option<nat>)
      requires Valid()
      modifies this
      ensures Valid()
      ensures cooldown == CooldownAfter(TapOutcome(old(gameState), now - old(startTime)))
      ensures TapOutcome(old(gameState), now - old(startTime)) == FalseStart ==>
                falseStart && gameState == Result && reactionTimes == old(reactionTimes)
      ensures TapOutcome(old(gameState), now - old(startTime)).Counted? ==>
                reactionTimes == old(reactionTimes) + [now - old(startTime)] && gameState == Result
                && falseStart == old(falseStart)
      ensures TapOutcome(old(gameState), now - old(startTime)) == Ignored ==>
                gameState == old(gameState) && reactionTimes == old(reactionTimes) && falseStart == old(falseStart)
      ensures user == old(user) && currentTrial == old(currentTrial) && startTime == old(startTime)
    {
      if gameState == Ready || gameState == Set {
        falseStart := true;
        gameState := Result;
        cooldown := Some(FalseStartCooldownMs);
        return;
      }
      if gameState == Go {
        var reactionTime := now - startTime;
        if reactionTime < MinValidMs {
          falseStart := true;
          gameState := Result;
          cooldown := Some(FalseStartCooldownMs);
          return;
        }
        reactionTimes := reactionTimes + [reactionTime];
        gameState := Result;
        cooldown := Some(CooldownMs);
      } else {
        cooldown := None;
      }
    }

    /** The cooldown after a tap, the same on all three paths: the next trial while fewer than
        four trials are behind the current one, otherwise the end of the game. */
    method CooldownElapsed(store: Store, id: string, createdAt: string) returns (delay: Option<nat>)
      requires Valid() && store.Valid()
      modifies this, store
      ensures Valid() && store.Valid()
      ensures old(currentTrial) < TotalTrials - 1 ==>
                currentTrial == old(currentTrial) + 1 && gameState == Ready && !falseStart
                && delay == Some(ReadyMs) && store.items == old(store.items)
      ensures old(currentTrial) >= TotalTrials - 1 ==>
                currentTrial == old(currentTrial) && gameState == Complete && falseStart == old(falseStart)
                && delay.None?
                && store.items == AfterMaybeAdd(old(store.items), SprintRecord(user, reactionTimes), id, createdAt)
      ensures user == old(user) && reactionTimes == old(reactionTimes) && startTime == old(startTime)
    {
      if currentTrial < TotalTrials - 1 {
        currentTrial := currentTrial + 1;
        var d := StartTrial();
        delay := Some(d);
      } else {
        FinishGame(store, id, createdAt);
        delay := None;
      }
    }

    /** finishGame: the results screen, and a record of the current times when there is one. */
    method FinishGame(store: Store, id: string, createdAt: string)
      requires Valid() && store.Valid()
      modifies this, store
      ensures Valid() && store.Valid()
      ensures gameState == Complete
      ensures store.items == AfterMaybeAdd(old(store.items), SprintRecord(user, reactionTimes), id, createdAt)
      ensures user == old(user) && reactionTimes == old(reactionTimes) && currentTrial == old(currentTrial)
      ensures startTime == old(startTime) && falseStart == old(falseStart)
    {
      FinishWith(reactionTimes, store, id, createdAt);
    }

    /** The finishGame of a render whose `reactionTimes` was `times`: the results screen, and a
        record of `times` when there is one. */
    method FinishWith(times: seq<int>, store: Store, id: string, createdAt: string)
      requires Valid() && store.Valid()
      modifies this, store
      ensures Valid() && store.Valid()
      ensures gameState == Complete
      ensures store.items == AfterMaybeAdd(old(store.items), SprintRecord(user, times), id, createdAt)
      ensures user == old(user) && reactionTimes == old(reactionTimes) && currentTrial == old(currentTrial)
      ensures startTime == old(startTime) && falseStart == old(falseStart)
    {
      gameState := Complete;
      var record := SprintRecord(user, times);
      if record.Some? {
        var _ := store.AddRecord(record.value, id, createdAt);
      }
    }

    /** The cooldown as the page is written: the callback and the finishGame it calls belong to
        the render of the tap that queued it; `captured` is that render's `reactionTimes`, the
        list from before the tap. */
    method CooldownElapsedAsWritten(captured: seq<int>, store: Store, id: string, createdAt: string)
      returns (delay: Option<nat>)
      requires Valid() && store.Valid()
      modifies this, store
      ensures Valid() && store.Valid()
      ensures old(currentTrial) < TotalTrials - 1 ==>
                currentTrial == old(currentTrial) + 1 && gameState == Ready && !falseStart
                && delay == Some(ReadyMs) && store.items == old(store.items)
      ensures old(currentTrial) >= TotalTrials - 1 ==>
                currentTrial == old(currentTrial) && gameState == Complete && falseStart == old(falseStart)
                && delay.None?
                && store.items == AfterMaybeAdd(old(store.items), SprintRecord(user, captured), id, createdAt)
      ensures user == old(user) && reactionTimes == old(reactionTimes) && startTime == old(startTime)
    {
      if currentTrial < TotalTrials - 1 {
        delay := CooldownElapsed(store, id, createdAt);
      } else {
        FinishWith(captured, store, id, createdAt);
        delay := None;
      }
    }

    method ResetGame()
      requires Valid()
      modifies this
      ensures Valid()
      ensures gameState == Intro && reactionTimes == [] && currentTrial == 0 && !falseStart
      ensures user == old(user) && startTime == old(startTime)
    {
      gameState := Intro;
      reactionTimes := [];
      currentTrial := 0;
      falseStart := false;
    }
  }

  /** Whatever a game has kept, a record it saves is at least 100 ms. */
  method SavedRecordIsCounted(game: Game, store: Store, id: string, createdAt: string)
    requires game.Valid() && store.Valid() && game.user.Some? && |game.reactionTimes| > 0
    modifies game, store
    ensures store.Valid() && game.user == old(game.user) && game.reactionTimes == old(game.reactionTimes)
    ensures StoredRecords(store.items) == old(StoredRecords(store.items)) + [WithIdentity(SprintRecord(game.user, game.reactionTimes).value, id, createdAt)]
    ensures StoredRecords(store.items)[|StoredRecords(store.items)| - 1].reactionTime >= MinValidMs
  {
    game.FinishGame(store, id, createdAt);
  }

  /** The record the final cooldown saves as the page is written: as on the simple page, the
      finishGame it calls belongs to the render of the last tap, whose `reactionTimes` is the
      list from before that tap. `last` is the time a counted last tap appended. */
  function FinalRecordAsWritten(user: Option<User>, before: seq<int>, last: Option<int>): Option<NewRecord>
  {
    SprintRecord(user, before)
  }

  /** The record the final cooldown was meant to save: every counted time. */
  function FinalRecordIntended(user: Option<User>, before: seq<int>, last: Option<int>): Option<NewRecord>
  {
    SprintRecord(user, before + (if last.Some? then [last.value] else []))
  }

  /** The page as written: a counted start on the last trial is shown on the results screen,
      but the cooldown saves the record of the times from before it. */
  method StaleLastStartScenario(game: Game, store: Store, now: int, id: string, createdAt: string)
    requires game.Valid() && store.Valid()
    requires game.gameState == Go && game.currentTrial == TotalTrials - 1 && now - game.startTime >= MinValidMs
    modifies game, store
    ensures game.gameState == Complete
    ensures game.reactionTimes == old(game.reactionTimes) + [now - old(game.startTime)]
    ensures store.items == AfterMaybeAdd(old(store.items),
              FinalRecordAsWritten(game.user, old(game.reactionTimes), Some(now - old(game.startTime))), id, createdAt)
  {
    var captured := game.reactionTimes;
    var cooldown := game.HandleTap(now);
    assert cooldown == Some(CooldownMs);
    var delay := game.CooldownElapsedAsWritten(captured, store, id, createdAt);
  }

  /** Four false starts and a counted last start: nothing is saved as written, though the
      results screen shows the time; the intended record holds it. */
  lemma StaleFinishDropsLoneStart(user: User, t: int)
    ensures FinalRecordAsWritten(Some(user), [], Some(t)).None?
    ensures FinalRecordIntended(Some(user), [], Some(t)) == Some(NewRecord(user.id, user.name, Sprint, t, None, None, None))
  {
    assert [] + [t] == [t];
    StatsOfConstant([t], t);
  }

  /** The corrected game saves the last counted time: after a counted tap on the last trial and
      its cooldown, the stored record covers the times including that tap. */
  method LastStartScenario(game: Game, store: Store, now: int, id: string, createdAt: string)
    requires game.Valid() && store.Valid()
    requires game.gameState == Go && game.currentTrial == TotalTrials - 1 && now - game.startTime >= MinValidMs
    modifies game, store
    ensures game.gameState == Complete
    ensures store.items == AfterMaybeAdd(old(store.items),
              SprintRecord(game.user, old(game.reactionTimes) + [now - old(game.startTime)]), id, createdAt)
  {
    var cooldown := game.HandleTap(now);
    assert cooldown == Some(CooldownMs);
    var delay := game.CooldownElapsed(store, id, createdAt);
  }
}
