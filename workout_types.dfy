/** The entities of the workout sequencer, as records of values. */
module WorkoutTypes {
  import opened Options

  /** How an exercise is measured: by a count of repetitions or by a duration in seconds. */
  datatype ExerciseType = Repetitions | Duration

  /** The category of a sequence: an ordinary workout or a warm-up. */
  datatype SequenceType = Workout | Warmup

  /** One exercise of a sequence; `duration` is in seconds. */
  datatype Exercise = Exercise(
    id: string,
    name: string,
    kind: ExerciseType,
    repetitions: Option<nat>,
    duration: Option<nat>)

  /**
   * A workout sequence. `kind` is the record's `type` field; it is optional
   * here because records written before the field existed lack it, and the
   * store fills it in on every read. Break durations are in seconds and
   * timestamps are abstract instants.
   */
  datatype WorkoutSequence = WorkoutSequence(
    id: string,
    name: string,
    kind: Option<SequenceType>,
    exercises: seq<Exercise>,
    breakDuration: Option<nat>,
    cycleBreakDuration: Option<nat>,
    cycleRepetitions: Option<nat>,
    createdAt: nat,
    updatedAt: nat)

  /** A record that a sequence was started at some instant. */
  datatype WorkoutLaunch = WorkoutLaunch(sequenceId: string, sequenceName: string, launchedAt: nat)
}
