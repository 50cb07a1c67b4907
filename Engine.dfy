/**
 * The ready-workout screen's state cells and the handlers that overwrite
 * them, as a class. Each handler is proved to perform the transition that
 * `Execution` defines, so every property proved there holds of the object.
 */
module Engine {
  import opened Wrappers
  import opened Catalog
  import Execution

  class WorkoutExecution {
    const exercises: seq<Exercise>
    var round: int
    var currentExerciseIndex: int
    var status: Execution.Status
    var timeLeft: int
    var isVideoLoading: bool
    /** The screen has navigated to the final screen. */
    var finished: bool

    function State(): Execution.ExecState
      reads this
    {
      Execution.ExecState(round, currentExerciseIndex, status, timeLeft, isVideoLoading, finished)
    }

    ghost predicate Valid()
      reads this
    {
      Execution.Inv(State(), |exercises|)
    }

    constructor (exercises: seq<Exercise>)
      requires |exercises| > 0
      ensures this.exercises == exercises
      ensures Valid() && State() == Execution.Initial
    {
      this.exercises := exercises;
      round, currentExerciseIndex, status := 1, 0, Execution.Idle;
      timeLeft, isVideoLoading, finished := 0, true, false;
    }

    /** The last-exercise decision: the final screen after the last round, else the between-rounds screen. */
    method EndRound()
      modifies this
      ensures State() == Execution.EndOfRound(old(State()))
    {
      if round >= Execution.MaxRounds {
        finished := true;
      } else {
        status := Execution.RoundComplete;
      }
    }

    /** The next exercise starts with a fresh countdown while its video loads. */
    method StartExercise(i: int)
      modifies this
      ensures State() == Execution.StartExercise(old(State()), i)
    {
      currentExerciseIndex := i;
      status := Execution.Exercising;
      timeLeft := Execution.ExerciseSeconds;
      isVideoLoading := true;
    }

    /** One second of the timer, when one is armed. */
    method Tick()
      requires Valid() && !finished
      modifies this
      ensures Valid()
      ensures State() == Execution.Tick(old(State()), |exercises|)
    {
      Execution.TickKeepsInv(State(), |exercises|);
      var firstOfRound := currentExerciseIndex == 0;
      var pausedForLoading := firstOfRound && status == Execution.Exercising && isVideoLoading;
      if status == Execution.Idle || status == Execution.RoundComplete || pausedForLoading {
        return;
      }
      if timeLeft > 1 {
        timeLeft := timeLeft - 1;
      } else if status == Execution.Exercising && currentExerciseIndex != |exercises| - 1 {
        status := Execution.Resting;
        timeLeft := Execution.RestSeconds;
      } else if status == Execution.Resting && currentExerciseIndex + 1 < |exercises| {
        StartExercise(currentExerciseIndex + 1);
      } else {
        // the last exercise expired (a rest with no exercise after it ends the same way)
        timeLeft := 0;
        EndRound();
      }
    }

    method StartRound()
      requires !finished && 1 <= round <= Execution.MaxRounds && |exercises| > 0
      modifies this
      ensures Valid()
      ensures State() == Execution.StartRound(old(State()))
    {
      StartExercise(0);
    }

    /** Offered only by the between-rounds screen. */
    method StartNextRound()
      requires Valid() && status == Execution.RoundComplete
      modifies this
      ensures Valid()
      ensures State() == Execution.StartNextRound(old(State()))
    {
      round := round + 1;
      StartRound();
    }

    /** The button of the between-rounds screen: the first round from the opening screen, the next one otherwise. */
    method PressStart()
      requires Valid() && (status == Execution.Idle || status == Execution.RoundComplete)
      modifies this
      ensures Valid()
      ensures State() == Execution.PressStart(old(State()))
    {
      var isFirstRound := round == 1 && status == Execution.Idle;
      if isFirstRound {
        StartRound();
      } else {
        StartNextRound();
      }
    }

    /** Skip forward. */
    method GoToNextExercise()
      requires Valid() && !finished
      modifies this
      ensures Valid()
      ensures State() == Execution.GoToNextExercise(old(State()), |exercises|)
    {
      Execution.NextKeepsInv(State(), |exercises|);
      var hasNext := if status == Execution.Resting then currentExerciseIndex + 1 < |exercises|
                     else currentExerciseIndex != |exercises| - 1;
      if hasNext {
        StartExercise(currentExerciseIndex + 1);
      } else {
        EndRound();
      }
    }

    /** Skip back. */
    method GoToPreviousExercise()
      requires Valid() && !finished
      modifies this
      ensures Valid()
      ensures State() == Execution.GoToPreviousExercise(old(State()))
    {
      Execution.PreviousKeepsInv(State(), |exercises|);
      if status == Execution.Resting {
        status := Execution.Exercising;
        timeLeft := Execution.ExerciseSeconds;
        isVideoLoading := currentExerciseIndex != 0;
      } else if currentExerciseIndex > 0 {
        var prevIndex := currentExerciseIndex - 1;
        currentExerciseIndex := prevIndex;
        status := Execution.Exercising;
        timeLeft := Execution.ExerciseSeconds;
        isVideoLoading := prevIndex != 0;
      } else {
        timeLeft := Execution.ExerciseSeconds;
        isVideoLoading := false;
      }
    }

    /** `onVideoLoaded`. */
    method OnVideoLoaded()
      requires Valid()
      modifies this
      ensures Valid()
      ensures State() == Execution.VideoLoaded(old(State()))
    {
      isVideoLoading := false;
    }
  }

  /** Opening the screen for workout `id`: `None` when the workout is unknown and the screen redirects. */
  method Open(workouts: seq<ReadyWorkout>, catalog: seq<Exercise>, id: string) returns (screen: Option<WorkoutExecution>)
    ensures screen.Some? ==> fresh(screen.value) && screen.value.Valid() && screen.value.State() == Execution.Initial
    ensures screen.Some? ==> SessionExercises(workouts, catalog, id) == Some(screen.value.exercises)
    ensures screen.None? ==> match SessionExercises(workouts, catalog, id)
      case None => true
      case Some(exs) => exs == []
  {
    match SessionExercises(workouts, catalog, id)
    case None => screen := None;
    case Some(exs) =>
      if exs == [] {
        screen := None;
      } else {
        var w := new WorkoutExecution(exs);
        screen := Some(w);
      }
  }
}
