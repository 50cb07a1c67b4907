/**
 * The workout execution state machine of the ready-workout screen, as pure
 * transitions on a snapshot of its five state cells plus a `finished` flag
 * that stands for the navigation to the final screen. `n` is the number of
 * exercises of the workout.
 */
module Execution {

  const MaxRounds: int := 3
  const ExerciseSeconds: int := 40
  const RestSeconds: int := 30

  datatype Status = Idle | Exercising | Resting | RoundComplete

  datatype ExecState = ExecState(
    round: int,
    index: int,
    status: Status,
    timeLeft: int,
    isVideoLoading: bool,
    finished: bool)

  /** The state the screen opens in. */
  const Initial := ExecState(1, 0, Idle, 0, true, false)

  /** No timer is armed: between rounds, before the first, and while the first exercise of a round loads. */
  predicate Paused(s: ExecState) {
    s.status == Idle || s.status == RoundComplete
    || (s.index == 0 && s.status == Exercising && s.isVideoLoading)
  }

  /** The decision taken after the last exercise of a round, by the timer and by the skip button alike. */
  function EndOfRound(s: ExecState): (r: ExecState)
    ensures r.finished <==> s.finished || s.round >= MaxRounds
    ensures s.round < MaxRounds ==> r.status == RoundComplete
    ensures r.round == s.round && r.index == s.index && r.timeLeft == s.timeLeft && r.isVideoLoading == s.isVideoLoading
  {
    if s.round >= MaxRounds then s.(finished := true) else s.(status := RoundComplete)
  }

  /** Exercise `i` starts with a fresh countdown while its video loads. */
  function StartExercise(s: ExecState, i: int): (r: ExecState)
    ensures r.index == i && r.status == Exercising && r.timeLeft == ExerciseSeconds && r.isVideoLoading
    ensures r.round == s.round && r.finished == s.finished
  {
    s.(index := i, status := Exercising, timeLeft := ExerciseSeconds, isVideoLoading := true)
  }

  /** One second of the countdown. */
  function Tick(s: ExecState, n: int): (r: ExecState)
    ensures Paused(s) ==> r == s
    ensures r.round == s.round
    ensures r.index == s.index || (s.status == Resting && r.index == s.index + 1 < n)
    ensures r.finished != s.finished ==> s.round >= MaxRounds && s.timeLeft <= 1 && r.timeLeft == 0
  {
    if Paused(s) then s
    else if s.timeLeft > 1 then s.(timeLeft := s.timeLeft - 1)
    else if s.status == Exercising then
      if s.index == n - 1 then EndOfRound(s.(timeLeft := 0))
      else s.(status := Resting, timeLeft := RestSeconds)
    else if s.index + 1 >= n then EndOfRound(s.(timeLeft := 0))
    else StartExercise(s, s.index + 1)
  }

  function StartRound(s: ExecState): (r: ExecState)
    ensures r.round == s.round && r.index == 0 && r.status == Exercising
    ensures r.timeLeft == ExerciseSeconds && r.isVideoLoading
  {
    StartExercise(s, 0)
  }

  function StartNextRound(s: ExecState): (r: ExecState)
    ensures r.round == s.round + 1 && r.index == 0 && r.status == Exercising
    ensures r.timeLeft == ExerciseSeconds && r.isVideoLoading
  {
    StartRound(s.(round := s.round + 1))
  }

  /** The start button of the between-rounds screen: the first round, or the next one. */
  function PressStart(s: ExecState): (r: ExecState)
    requires s.status == Idle || s.status == RoundComplete
    ensures r.round == if s.round == 1 && s.status == Idle then s.round else s.round + 1
    ensures r.index == 0 && r.status == Exercising && r.timeLeft == ExerciseSeconds && r.isVideoLoading
  {
    if s.round == 1 && s.status == Idle then StartRound(s) else StartNextRound(s)
  }

  function GoToNextExercise(s: ExecState, n: int): (r: ExecState)
    ensures r.round == s.round
    ensures r.index == s.index || r.index == s.index + 1
    ensures r.index == s.index + 1 ==> r.status == Exercising && r.timeLeft == ExerciseSeconds && r.isVideoLoading
    ensures r.index == s.index ==> r.timeLeft == s.timeLeft && r.isVideoLoading == s.isVideoLoading
    ensures r.index == s.index + 1 <==> (if s.status == Resting then s.index + 1 < n else s.index != n - 1)
  {
    if s.status == Resting then
      if s.index + 1 < n then StartExercise(s, s.index + 1) else EndOfRound(s)
    else if s.index == n - 1 then EndOfRound(s)
    else StartExercise(s, s.index + 1)
  }

  function GoToPreviousExercise(s: ExecState): (r: ExecState)
    ensures r.round == s.round && r.finished == s.finished && r.timeLeft == ExerciseSeconds
    ensures r.index == (if s.status != Resting && s.index > 0 then s.index - 1 else s.index)
    ensures s.status == Resting || s.index > 0 ==> r.status == Exercising && (r.isVideoLoading <==> r.index != 0)
    ensures s.status != Resting && s.index <= 0 ==> r.status == s.status && !r.isVideoLoading
  {
    if s.status == Resting then
      s.(status := Exercising, timeLeft := ExerciseSeconds, isVideoLoading := s.index != 0)
    else if s.index > 0 then
      s.(index := s.index - 1, status := Exercising, timeLeft := ExerciseSeconds, isVideoLoading := s.index - 1 != 0)
    else s.(timeLeft := ExerciseSeconds, isVideoLoading := false)
  }

  function VideoLoaded(s: ExecState): (r: ExecState)
    ensures !r.isVideoLoading && r.(isVideoLoading := s.isVideoLoading) == s
  {
    s.(isVideoLoading := false)
  }

  /** The states the screen can be in. */
  predicate Inv(s: ExecState, n: int) {
    && 0 < n
    && 1 <= s.round <= MaxRounds
    && 0 <= s.index < n
    && (s.status == Idle ==> s.round == 1 && s.index == 0)
    && (s.status == Resting ==> s.index + 1 < n)
    && (s.status == RoundComplete ==> s.round < MaxRounds && s.index == n - 1)
    && (s.finished ==> s.status == Exercising && s.round == MaxRounds && s.index == n - 1)
    && (!s.finished && s.status == Exercising ==> 1 <= s.timeLeft <= ExerciseSeconds)
    && (!s.finished && s.status == Resting ==> 1 <= s.timeLeft <= RestSeconds)
  }

  // ---------------------------------------------------------------------
  // What the screen lets happen, event by event.

  datatype Event = TimerFired | NextPressed | PreviousPressed | StartPressed | VideoReady

  /** The exercise list and its two skip buttons are shown. */
  predicate OnExerciseScreen(s: ExecState) {
    s.status == Exercising || s.status == Resting
  }

  /**
   * One event. Once finished the screen is gone and nothing happens; the skip
   * buttons and the videos exist only on the exercise list, the start button
   * only on the between-rounds screen.
   */
  function Step(s: ExecState, n: int, e: Event): (r: ExecState)
    ensures s.finished ==> r == s
    ensures e != StartPressed ==> r.round == s.round
    ensures e == StartPressed && !s.finished && !OnExerciseScreen(s) ==> r.status == Exercising && r.index == 0
    ensures (e == NextPressed || e == PreviousPressed || e == VideoReady) && !OnExerciseScreen(s) ==> r == s
  {
    if s.finished then s
    else match e
      case TimerFired => Tick(s, n)
      case NextPressed => if OnExerciseScreen(s) then GoToNextExercise(s, n) else s
      case PreviousPressed => if OnExerciseScreen(s) then GoToPreviousExercise(s) else s
      case StartPressed => if OnExerciseScreen(s) then s else PressStart(s)
      case VideoReady => if OnExerciseScreen(s) then VideoLoaded(s) else s
  }

  function Run(s: ExecState, n: int, events: seq<Event>): ExecState
    decreases |events|
  {
    if events == [] then s else Run(Step(s, n, events[0]), n, events[1..])
  }

  function Ticks(k: nat): seq<Event> {
    seq(k, _ => TimerFired)
  }

  // ---------------------------------------------------------------------
  // The timer and the loading gate.

  lemma PausedTickChangesNothing(s: ExecState, n: int)
    requires Paused(s)
    ensures Tick(s, n) == s
  {
  }

  lemma {:induction false} PausedTimerStaysPaused(s: ExecState, n: int, k: nat)
    requires Paused(s)
    ensures Run(s, n, Ticks(k)) == s
  {
    if k > 0 {
      assert Ticks(k)[1..] == Ticks(k - 1);
      PausedTimerStaysPaused(s, n, k - 1);
    }
  }

  /** After loading the countdown runs: `onVideoLoaded` lifts the gate, and saying so twice changes nothing. */
  lemma VideoLoadedLiftsGate(s: ExecState, n: int)
    requires s.status == Exercising && s.timeLeft > 1
    ensures VideoLoaded(VideoLoaded(s)) == VideoLoaded(s)
    ensures !VideoLoaded(s).isVideoLoading && !Paused(VideoLoaded(s))
    ensures Tick(VideoLoaded(s), n) == VideoLoaded(s).(timeLeft := s.timeLeft - 1)
  {
  }

  lemma CountdownStep(s: ExecState, n: int)
    requires !Paused(s) && s.timeLeft > 1
    ensures Tick(s, n) == s.(timeLeft := s.timeLeft - 1)
  {
  }

  lemma ExerciseExpires(s: ExecState, n: int)
    requires !Paused(s) && s.status == Exercising && s.timeLeft <= 1
    ensures s.index != n - 1 ==> Tick(s, n) == s.(status := Resting, timeLeft := RestSeconds)
    ensures s.index == n - 1 && s.round >= MaxRounds ==> Tick(s, n) == s.(timeLeft := 0, finished := true)
    ensures s.index == n - 1 && s.round < MaxRounds ==> Tick(s, n) == s.(status := RoundComplete, timeLeft := 0)
  {
  }

  lemma RestExpires(s: ExecState, n: int)
    requires s.status == Resting && s.timeLeft <= 1
    ensures s.index + 1 < n ==> Tick(s, n) == s.(index := s.index + 1, status := Exercising, timeLeft := ExerciseSeconds, isVideoLoading := true)
    ensures s.index + 1 >= n ==> Tick(s, n) == EndOfRound(s.(timeLeft := 0))
  {
  }

  // ---------------------------------------------------------------------
  // The manual controls.

  lemma StartRoundShape(s: ExecState)
    ensures StartRound(s) == s.(index := 0, status := Exercising, timeLeft := ExerciseSeconds, isVideoLoading := true)
    ensures StartNextRound(s).round == s.round + 1 && StartNextRound(s).index == 0
  {
  }

  lemma NextExerciseShape(s: ExecState, n: int)
    requires Inv(s, n)
    ensures var r := GoToNextExercise(s, n);
      && r.round == s.round
      && 0 <= r.index < n
      && ((s.status == Resting && s.index + 1 >= n) || (s.status != Resting && s.index == n - 1)
          ==> r == EndOfRound(s) && r.timeLeft == s.timeLeft)
      && ((s.status == Resting && s.index + 1 < n) || (s.status != Resting && s.index != n - 1)
          ==> r == s.(index := s.index + 1, status := Exercising, timeLeft := ExerciseSeconds, isVideoLoading := true))
  {
  }

  lemma PreviousExerciseShape(s: ExecState)
    requires s.index >= 0
    ensures var r := GoToPreviousExercise(s);
      && r.round == s.round && r.index >= 0 && r.timeLeft == ExerciseSeconds && r.finished == s.finished
      && (s.status == Resting ==> r.index == s.index && r.status == Exercising && (r.isVideoLoading <==> s.index != 0))
      && (s.status != Resting && s.index > 0 ==> r.index == s.index - 1 && r.status == Exercising && (r.isVideoLoading <==> r.index != 0))
      && (s.status != Resting && s.index == 0 ==> r == s.(timeLeft := ExerciseSeconds, isVideoLoading := false))
  {
  }

  // ---------------------------------------------------------------------
  // The invariant.

  lemma InitialIsValid(n: int)
    requires n > 0
    ensures Inv(Initial, n)
  {
  }

  lemma TickKeepsInv(s: ExecState, n: int)
    requires Inv(s, n) && !s.finished
    ensures Inv(Tick(s, n), n) && Tick(s, n).round == s.round
  {
  }

  lemma NextKeepsInv(s: ExecState, n: int)
    requires Inv(s, n) && !s.finished
    ensures Inv(GoToNextExercise(s, n), n) && GoToNextExercise(s, n).round == s.round
  {
  }

  lemma PreviousKeepsInv(s: ExecState, n: int)
    requires Inv(s, n) && !s.finished
    ensures Inv(GoToPreviousExercise(s), n) && GoToPreviousExercise(s).round == s.round
  {
  }

  lemma StartKeepsInv(s: ExecState, n: int)
    requires Inv(s, n) && (s.status == Idle || s.status == RoundComplete)
    ensures Inv(PressStart(s), n)
    ensures PressStart(s).round == if s.status == Idle then s.round else s.round + 1
  {
  }

  lemma VideoLoadedKeepsInv(s: ExecState, n: int)
    requires Inv(s, n)
    ensures Inv(VideoLoaded(s), n) && VideoLoaded(s).round == s.round
  {
  }

  lemma StepKeepsInv(s: ExecState, n: int, e: Event)
    requires Inv(s, n)
    ensures Inv(Step(s, n, e), n)
  {
    if !s.finished {
      match e
      case TimerFired => TickKeepsInv(s, n);
      case NextPressed => NextKeepsInv(s, n);
      case PreviousPressed => PreviousKeepsInv(s, n);
      case StartPressed => if !OnExerciseScreen(s) { StartKeepsInv(s, n); }
      case VideoReady => VideoLoadedKeepsInv(s, n);
    }
  }

  /** Every state the screen reaches is valid: round in 1..3, index in 0..n-1, and the rest of `Inv`. */
  lemma {:induction false} RunKeepsInv(s: ExecState, n: int, events: seq<Event>)
    requires Inv(s, n)
    ensures Inv(Run(s, n, events), n)
    decreases |events|
  {
    if events != [] {
      StepKeepsInv(s, n, events[0]);
      RunKeepsInv(Step(s, n, events[0]), n, events[1..]);
    }
  }

  /** The round moves only by the start button after a completed round, and then by one. */
  lemma RoundMovesOnlyOnStart(s: ExecState, n: int, e: Event)
    requires Inv(s, n)
    ensures Step(s, n, e).round != s.round ==>
      e == StartPressed && s.status == RoundComplete && Step(s, n, e).round == s.round + 1
  {
  }

  /** The workout finishes only at the last exercise of the final round, by the timer or the skip button. */
  lemma FinishOnlyAfterLastExercise(s: ExecState, n: int, e: Event)
    requires Inv(s, n) && !s.finished && Step(s, n, e).finished
    ensures s.round == MaxRounds && s.index == n - 1 && s.status == Exercising
    ensures (e == TimerFired && s.timeLeft <= 1) || e == NextPressed
  {
  }

  /** Once finished, nothing changes any more: the final screen is reached exactly once. */
  lemma {:induction false} FinishedIsFinal(s: ExecState, n: int, events: seq<Event>)
    requires s.finished
    ensures Run(s, n, events) == s
    decreases |events|
  {
    if events != [] {
      FinishedIsFinal(s, n, events[1..]);
    }
  }

  // ---------------------------------------------------------------------
  // A whole workout driven by the timer.

  lemma {:induction false} RunAppend(s: ExecState, n: int, a: seq<Event>, b: seq<Event>)
    ensures Run(s, n, a + b) == Run(Run(s, n, a), n, b)
    decreases |a|
  {
    if a != [] {
      assert (a + b)[0] == a[0];
      assert (a + b)[1..] == a[1..] + b;
      RunAppend(Step(s, n, a[0]), n, a[1..], b);
    } else {
      assert a + b == b;
    }
  }

  lemma TicksAppend(a: nat, b: nat)
    ensures Ticks(a + b) == Ticks(a) + Ticks(b)
  {
  }

  /** A running countdown of `t` seconds reaches 1 after `t - 1` ticks, nothing else changing. */
  lemma {:induction false} Countdown(s: ExecState, n: int, k: nat)
    requires !s.finished && !Paused(s) && k < s.timeLeft
    ensures Run(s, n, Ticks(k)) == s.(timeLeft := s.timeLeft - k)
    decreases k
  {
    if k > 0 {
      assert Ticks(k)[1..] == Ticks(k - 1);
      assert Step(s, n, TimerFired) == s.(timeLeft := s.timeLeft - 1);
      Countdown(s.(timeLeft := s.timeLeft - 1), n, k - 1);
    }
  }

  /** A whole phase: `t` ticks from a running countdown at `t` take the phase's expiry transition. */
  lemma PhaseLasts(s: ExecState, n: int)
    requires !s.finished && !Paused(s) && s.timeLeft >= 1
    ensures Run(s, n, Ticks(s.timeLeft)) == Tick(s.(timeLeft := 1), n)
  {
    var t := s.timeLeft;
    TicksAppend(t - 1, 1);
    RunAppend(s, n, Ticks(t - 1), Ticks(1));
    Countdown(s, n, t - 1);
    assert Ticks(1)[1..] == [];
  }

  /** Forty seconds of exercise and thirty of rest lead to the next exercise. */
  lemma ExerciseThenRest(s: ExecState, n: int)
    requires !s.finished && !Paused(s) && s.status == Exercising && s.timeLeft == ExerciseSeconds
    requires 0 <= s.index && s.index + 1 < n
    ensures Run(s, n, Ticks(ExerciseSeconds + RestSeconds)) == StartExercise(s, s.index + 1)
  {
    TicksAppend(ExerciseSeconds, RestSeconds);
    RunAppend(s, n, Ticks(ExerciseSeconds), Ticks(RestSeconds));
    PhaseLasts(s, n);
    var rest := s.(status := Resting, timeLeft := RestSeconds);
    assert Run(s, n, Ticks(ExerciseSeconds)) == rest;
    PhaseLasts(rest, n);
  }

  /** After `70 * k` ticks of a round whose first video has loaded, exercise `k` has just started. */
  lemma {:induction false} RoundVisitsInOrder(s: ExecState, n: int, k: nat)
    requires !s.finished && s.status == Exercising && s.index == 0 && !s.isVideoLoading
    requires s.timeLeft == ExerciseSeconds && k < n
    ensures Run(s, n, Ticks((ExerciseSeconds + RestSeconds) * k)) == if k == 0 then s else StartExercise(s, k)
  {
    if k > 0 {
      var c := ExerciseSeconds + RestSeconds;
      RoundVisitsInOrder(s, n, k - 1);
      TicksAppend(c * (k - 1), c);
      assert c * k == c * (k - 1) + c;
      RunAppend(s, n, Ticks(c * (k - 1)), Ticks(c));
      var at := if k == 1 then s else StartExercise(s, k - 1);
      assert at.index == k - 1;
      ExerciseThenRest(at, n);
    }
  }

  /** Ticks in a round of `n` exercises: forty of exercise each, thirty of rest between them. */
  function RoundSeconds(n: int): nat
    requires n > 0
  {
    (ExerciseSeconds + RestSeconds) * (n - 1) + ExerciseSeconds
  }

  /** The state at the end of round `r` when only the timer ran. */
  function RoundEnd(r: int, n: int): ExecState {
    EndOfRound(ExecState(r, n - 1, Exercising, 0, n > 1, false))
  }

  /** A round started with the button and its first video loaded ends after `RoundSeconds(n)` ticks. */
  lemma RoundByTimer(s: ExecState, n: int)
    requires Inv(s, n) && (s.status == Idle || s.status == RoundComplete)
    ensures var r := if s.status == Idle then s.round else s.round + 1;
      Run(s, n, [StartPressed, VideoReady] + Ticks(RoundSeconds(n))) == RoundEnd(r, n)
  {
    var c := ExerciseSeconds + RestSeconds;
    var begun := PressStart(s);
    var loaded := VideoLoaded(begun);
    RunAppend(s, n, [StartPressed, VideoReady], Ticks(RoundSeconds(n)));
    assert Run(s, n, [StartPressed, VideoReady]) == loaded by {
      assert [StartPressed, VideoReady][1..] == [VideoReady];
      assert [VideoReady][1..] == [];
    }
    TicksAppend(c * (n - 1), ExerciseSeconds);
    RunAppend(loaded, n, Ticks(c * (n - 1)), Ticks(ExerciseSeconds));
    RoundVisitsInOrder(loaded, n, n - 1);
    var last := if n - 1 == 0 then loaded else StartExercise(loaded, n - 1);
    assert !Paused(last);
    PhaseLasts(last, n);
  }

  /** The events of one round driven by the timer. */
  function RoundEvents(n: int): seq<Event>
    requires n > 0
  {
    [StartPressed, VideoReady] + Ticks(RoundSeconds(n))
  }

  /**
   * The whole workout by the timer: two rounds end on the between-rounds
   * screen, the third finishes at the last exercise.
   */
  lemma WorkoutByTimer(n: int)
    requires n > 0
    ensures Run(Initial, n, RoundEvents(n)) == RoundEnd(1, n)
    ensures RoundEnd(1, n).status == RoundComplete
    ensures Run(Initial, n, RoundEvents(n) + RoundEvents(n)) == RoundEnd(2, n)
    ensures RoundEnd(2, n).status == RoundComplete
    ensures Run(Initial, n, RoundEvents(n) + RoundEvents(n) + RoundEvents(n)) == RoundEnd(3, n)
    ensures RoundEnd(3, n).finished && RoundEnd(3, n).round == MaxRounds && RoundEnd(3, n).index == n - 1
  {
    var e := RoundEvents(n);
    RoundByTimer(Initial, n);
    InitialIsValid(n);
    assert Inv(RoundEnd(1, n), n);
    RunAppend(Initial, n, e, e);
    RoundByTimer(RoundEnd(1, n), n);
    assert Inv(RoundEnd(2, n), n);
    RunAppend(Initial, n, e + e, e);
    RoundByTimer(RoundEnd(2, n), n);
  }
}
