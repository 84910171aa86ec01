/**
 * The duration estimate of a workout sequence: the seconds one pass through
 * the exercises takes, repeated over the cycles with rests between them, and
 * the text that shows the total as seconds, whole minutes, or both.
 */
module SequenceUtils {
  import opened Options
  import opened WorkoutTypes
  import opened Decimal

  /** The fixed allowance for one repetition of a repetition exercise. */
  const SecondsPerRepetition: nat := 2

  /** The cycle count, with an absent count meaning a single cycle. */
  function CycleCount(s: WorkoutSequence): nat {
    s.cycleRepetitions.GetOr(1)
  }

  /** The rest between two exercises of a cycle, absent meaning none. */
  function BreakSeconds(s: WorkoutSequence): nat {
    s.breakDuration.GetOr(0)
  }

  /** The rest between two cycles, absent meaning none. */
  function CycleBreakSeconds(s: WorkoutSequence): nat {
    s.cycleBreakDuration.GetOr(0)
  }

  /** The time one exercise takes: its duration, or the allowance for its repetitions. */
  function ExerciseSeconds(e: Exercise): nat {
    if e.kind == Duration then e.duration.GetOr(0)
    else e.repetitions.GetOr(0) * SecondsPerRepetition
  }

  /** The sum of the exercises' own times, in the order the estimate adds them up. */
  function BaseCycleSeconds(exercises: seq<Exercise>): nat {
    if exercises == [] then 0
    else BaseCycleSeconds(exercises[..|exercises| - 1]) + ExerciseSeconds(exercises[|exercises| - 1])
  }

  /** One pass through the exercises with a rest between each two of them. */
  function CycleSeconds(s: WorkoutSequence): nat {
    var n := |s.exercises|;
    BaseCycleSeconds(s.exercises) + if n > 1 then (n - 1) * BreakSeconds(s) else 0
  }

  /**
   * The estimated total: the cycles and a rest between each two of them. A
   * cycle count of zero, which nothing in the record forbids, makes this
   * negative (minus one cycle break).
   */
  function TotalSeconds(s: WorkoutSequence): int {
    CycleCount(s) * CycleSeconds(s) + (CycleCount(s) - 1) * CycleBreakSeconds(s)
  }

  /** The three shapes of the estimate text: "{n}s", "{m}min" and "{m}min {s}s". */
  datatype Rendering = Secs(n: int) | Min(m: nat) | MinSec(m: nat, s: nat)

  /** The seconds a rendering stands for. */
  function RenderedSeconds(r: Rendering): int {
    match r
    case Secs(n) => n
    case Min(m) => m * 60
    case MinSec(m, s) => m * 60 + s
  }

  /**
   * The shape a total is shown in: plain seconds under a minute, whole
   * minutes when nothing is left over, and minutes with the leftover
   * seconds otherwise.
   */
  function Classify(total: int): (r: Rendering)
    ensures r.Secs? <==> total < 60
    ensures r.Min? ==> r.m >= 1 && total % 60 == 0
    ensures r.MinSec? ==> r.m >= 1 && 1 <= r.s < 60
    ensures RenderedSeconds(r) == total
  {
    if total < 60 then Secs(total)
    else
      var minutes := total / 60;
      var seconds := total % 60;
      if seconds == 0 then Min(minutes) else MinSec(minutes, seconds)
  }

  function Render(r: Rendering): string {
    match r
    case Secs(n) => IntToString(n) + "s"
    case Min(m) => NatToString(m) + "min"
    case MinSec(m, s) => NatToString(m) + "min " + NatToString(s) + "s"
  }

  /** The text the estimate shows for a total number of seconds. */
  function FormatDuration(total: int): string {
    Render(Classify(total))
  }

  /** Reads an estimate text back into the seconds it stands for. */
  function ParseDuration(text: string): Option<int> {
    if |text| > 0 && text[0] == '-' then
      match ReadNat(text[1..])
      case Some((a, rest)) => if rest == "s" then Some(-(a as int)) else None
      case None => None
    else
      match ReadNat(text)
      case Some((a, rest)) => ParseUnits(a, rest)
      case None => None
  }

  /** Reads what follows the leading number of a non-negative estimate text. */
  function ParseUnits(a: nat, rest: string): Option<int> {
    if rest == "s" then Some(a)
    else if rest == "min" then Some(a * 60)
    else if |rest| > 4 && rest[..4] == "min " then
      match ReadNat(rest[4..])
      case Some((b, "s")) => Some(a * 60 + b)
      case _ => None
    else None
  }

  /**
   * The estimate of a sequence, computed as the application does: the
   * exercise times are accumulated one exercise at a time, then the breaks,
   * the cycles and the text.
   */
  method EstimateSequenceDuration(sequence: WorkoutSequence) returns (text: string)
    ensures text == FormatDuration(TotalSeconds(sequence))
  {
    var cycles := sequence.cycleRepetitions.GetOr(1);
    var breakDuration := sequence.breakDuration.GetOr(0);
    var cycleBreakDuration := sequence.cycleBreakDuration.GetOr(0);
    var exercises := sequence.exercises;

    var cycleDuration: nat := 0;
    for i := 0 to |exercises|
      invariant cycleDuration == BaseCycleSeconds(exercises[..i])
    {
      var exercise := exercises[i];
      if exercise.kind == Duration {
        cycleDuration := cycleDuration + exercise.duration.GetOr(0);
      } else {
        cycleDuration := cycleDuration + exercise.repetitions.GetOr(0) * SecondsPerRepetition;
      }
      assert exercises[..i + 1][..i] == exercises[..i];
    }
    assert exercises[..|exercises|] == exercises;

    if |exercises| > 1 {
      cycleDuration := cycleDuration + (|exercises| - 1) * breakDuration;
    }
    assert cycleDuration == CycleSeconds(sequence);

    var totalSeconds := cycles * cycleDuration + (cycles - 1) * cycleBreakDuration;
    assert totalSeconds == TotalSeconds(sequence);
    if totalSeconds < 60 {
      return IntToString(totalSeconds) + "s";
    }
    var minutes := totalSeconds / 60;
    var seconds := totalSeconds % 60;
    if seconds == 0 {
      assert Classify(totalSeconds) == Min(minutes);
      return NatToString(minutes) + "min";
    }
    assert Classify(totalSeconds) == MinSec(minutes, seconds);
    return NatToString(minutes) + "min " + NatToString(seconds) + "s";
  }

  // ---------------------------------------------------------------------
  // Properties of the estimate

  /** Absent cycle count, break and cycle break mean 1, 0 and 0. */
  lemma DefaultsApply(s: WorkoutSequence)
    requires s.cycleRepetitions.None? && s.breakDuration.None? && s.cycleBreakDuration.None?
    ensures TotalSeconds(s)
         == TotalSeconds(s.(cycleRepetitions := Some(1), breakDuration := Some(0), cycleBreakDuration := Some(0)))
    ensures TotalSeconds(s) == BaseCycleSeconds(s.exercises)
  {
  }

  /** Adding exercises one after another adds their times. */
  lemma {:induction false} BaseCycleSecondsAppend(a: seq<Exercise>, b: seq<Exercise>)
    ensures BaseCycleSeconds(a + b) == BaseCycleSeconds(a) + BaseCycleSeconds(b)
    decreases |b|
  {
    if b == [] {
      assert a + b == a;
    } else {
      var last := |b| - 1;
      assert (a + b)[..|a + b| - 1] == a + b[..last];
      BaseCycleSecondsAppend(a, b[..last]);
    }
  }

  /** Taking one exercise out of a list takes its time out of the sum. */
  lemma BaseCycleSecondsRemoval(b: seq<Exercise>, j: nat)
    requires j < |b|
    ensures BaseCycleSeconds(b) == BaseCycleSeconds(b[..j] + b[j + 1..]) + ExerciseSeconds(b[j])
  {
    var x := b[j];
    assert b == b[..j] + [x] + b[j + 1..];
    BaseCycleSecondsAppend(b[..j] + [x], b[j + 1..]);
    BaseCycleSecondsAppend(b[..j], [x]);
    BaseCycleSecondsAppend(b[..j], b[j + 1..]);
    assert [x][..0] == [];
  }

  /** The order of the exercises does not change the sum of their times. */
  lemma {:induction false} BaseCycleSecondsPermutation(a: seq<Exercise>, b: seq<Exercise>)
    requires multiset(a) == multiset(b)
    ensures BaseCycleSeconds(a) == BaseCycleSeconds(b)
    decreases |a|
  {
    if a == [] {
      assert |b| == |multiset(b)| == 0;
    } else {
      var x := a[|a| - 1];
      var front := a[..|a| - 1];
      assert a == front + [x];
      assert x in multiset(b);
      var j :| 0 <= j < |b| && b[j] == x;
      var rest := b[..j] + b[j + 1..];
      assert b == b[..j] + [x] + b[j + 1..];
      assert multiset(front) == multiset(a) - multiset{x};
      assert multiset(rest) == multiset(b) - multiset{x};
      BaseCycleSecondsPermutation(front, rest);
      BaseCycleSecondsRemoval(b, j);
    }
  }

  /** With at most one exercise the break length has no effect. */
  lemma BreakIgnoredForShortCycles(s: WorkoutSequence, breakDuration: Option<nat>)
    requires |s.exercises| <= 1
    ensures CycleSeconds(s.(breakDuration := breakDuration)) == CycleSeconds(s) == BaseCycleSeconds(s.exercises)
    ensures TotalSeconds(s.(breakDuration := breakDuration)) == TotalSeconds(s)
  {
  }

  /** With a single cycle the total is one cycle and the cycle break has no effect. */
  lemma SingleCycle(s: WorkoutSequence, cycleBreakDuration: Option<nat>)
    requires CycleCount(s) == 1
    ensures TotalSeconds(s) == CycleSeconds(s)
    ensures TotalSeconds(s.(cycleBreakDuration := cycleBreakDuration)) == TotalSeconds(s)
  {
  }

  /** With at least one cycle the total is never negative and covers every cycle. */
  lemma TotalCoversCycles(s: WorkoutSequence)
    requires CycleCount(s) >= 1
    ensures TotalSeconds(s) >= CycleCount(s) * CycleSeconds(s) >= 0
  {
  }

  lemma ParseNegativeSeconds(n: int)
    requires n < 0
    ensures ParseDuration(Render(Secs(n))) == Some(n)
  {
    var text := Render(Secs(n));
    var digits := NatToString(-n);
    assert IntToString(n) == "-" + digits;
    assert text == "-" + (digits + "s");
    assert |text| > 0 && text[0] == '-';
    assert text[1..] == digits + "s";
    ReadNatOfNatToString(-n, "s");
    assert ReadNat(text[1..]) == Some((-n, "s"));
  }

  lemma ParseNonNegativeSeconds(n: nat)
    ensures ParseDuration(Render(Secs(n))) == Some(n)
  {
    var text := Render(Secs(n));
    assert text == NatToString(n) + "s";
    assert text[0] == NatToString(n)[0];
    ReadNatOfNatToString(n, "s");
  }

  lemma ParseMinutes(m: nat)
    ensures ParseDuration(Render(Min(m))) == Some(m * 60)
  {
    var text := Render(Min(m));
    assert text[0] == NatToString(m)[0];
    ReadNatOfNatToString(m, "min");
    assert ReadNat(text) == Some((m, "min"));
  }

  lemma ParseMinutesSeconds(m: nat, s: nat)
    requires 1 <= s < 60
    ensures ParseDuration(Render(MinSec(m, s))) == Some(m * 60 + s)
  {
    var text := Render(MinSec(m, s));
    var rest := "min " + (NatToString(s) + "s");
    assert text == NatToString(m) + rest;
    assert text[0] == NatToString(m)[0];
    ReadNatOfNatToString(m, rest);
    assert ParseDuration(text) == ParseUnits(m, rest);
    ParseUnitsMinutesSeconds(m, s);
  }

  lemma ParseUnitsMinutesSeconds(m: nat, s: nat)
    ensures ParseUnits(m, "min " + (NatToString(s) + "s")) == Some(m * 60 + s)
  {
    var rest := "min " + (NatToString(s) + "s");
    assert rest != "s" && rest != "min";
    assert rest[..4] == "min " && rest[4..] == NatToString(s) + "s";
    ReadNatOfNatToString(s, "s");
  }

  /** The text of any total reads back as that total. */
  lemma ParseFormatDuration(total: int)
    ensures ParseDuration(FormatDuration(total)) == Some(total)
  {
    match Classify(total)
    case Secs(n) => if n < 0 { ParseNegativeSeconds(n); } else { ParseNonNegativeSeconds(n); }
    case Min(m) => ParseMinutes(m);
    case MinSec(m, s) => ParseMinutesSeconds(m, s);
  }

  /** Distinct totals are shown as distinct texts. */
  lemma FormatDurationInjective(a: int, b: int)
    requires FormatDuration(a) == FormatDuration(b)
    ensures a == b
  {
    ParseFormatDuration(a);
    ParseFormatDuration(b);
  }

  /** The boundaries of the three shapes. */
  lemma FormatBoundaries()
    ensures FormatDuration(0) == "0s"
    ensures FormatDuration(59) == "59s"
    ensures FormatDuration(60) == "1min"
    ensures FormatDuration(61) == "1min 1s"
  {
    assert NatToString(59) == NatToString(5) + ['9'];
  }

  /**
   * A cycle count of zero leaves only minus one cycle break: its text is
   * "-{n}s" for a positive cycle break of n seconds, and "0s" without one.
   */
  lemma ZeroCyclesText(s: WorkoutSequence)
    requires CycleCount(s) == 0
    ensures CycleBreakSeconds(s) > 0 ==>
      FormatDuration(TotalSeconds(s)) == "-" + NatToString(CycleBreakSeconds(s)) + "s"
    ensures CycleBreakSeconds(s) == 0 ==> FormatDuration(TotalSeconds(s)) == "0s"
  {
    var c := CycleBreakSeconds(s);
    assert TotalSeconds(s) == -(c as int);
    assert Classify(-(c as int)) == Secs(-(c as int));
  }

  /** An empty sequence with every optional field absent is shown as "0s". */
  lemma EmptySequenceShowsZero(s: WorkoutSequence)
    requires s.exercises == []
    requires s.cycleRepetitions.None? && s.breakDuration.None? && s.cycleBreakDuration.None?
    ensures TotalSeconds(s) == 0 && FormatDuration(TotalSeconds(s)) == "0s"
  {
  }

  /** Ten repetitions alone take twenty seconds. */
  lemma RepetitionExample(s: WorkoutSequence)
    requires |s.exercises| == 1
    requires s.exercises[0].kind == Repetitions && s.exercises[0].repetitions == Some(10)
    requires s.cycleRepetitions.None? && s.cycleBreakDuration.None?
    ensures TotalSeconds(s) == 20 && FormatDuration(TotalSeconds(s)) == "20s"
  {
    assert s.exercises[..0] == [];
    assert ExerciseSeconds(s.exercises[0]) == 20;
    assert BaseCycleSeconds(s.exercises) == BaseCycleSeconds([]) + 20;
    assert NatToString(20) == NatToString(2) + ['0'];
  }

  /** Two five-second exercises with a three-second break between them take thirteen seconds. */
  lemma BreakExample(s: WorkoutSequence)
    requires |s.exercises| == 2
    requires forall i :: 0 <= i < 2 ==> s.exercises[i].kind == Duration && s.exercises[i].duration == Some(5)
    requires s.breakDuration == Some(3) && s.cycleRepetitions == Some(1)
    ensures TotalSeconds(s) == 13 && FormatDuration(TotalSeconds(s)) == "13s"
  {
    assert s.exercises[..1][..0] == [];
    assert ExerciseSeconds(s.exercises[0]) == 5 && ExerciseSeconds(s.exercises[1]) == 5;
    assert BaseCycleSeconds(s.exercises[..1]) == BaseCycleSeconds([]) + 5;
    assert BaseCycleSeconds(s.exercises) == BaseCycleSeconds(s.exercises[..1]) + 5;
    assert NatToString(13) == NatToString(1) + ['3'];
  }

  /** Three ten-second cycles with four-second rests between them take thirty-eight seconds. */
  lemma CycleExample(s: WorkoutSequence)
    requires CycleSeconds(s) == 10
    requires s.cycleRepetitions == Some(3) && s.cycleBreakDuration == Some(4)
    ensures TotalSeconds(s) == 38 && FormatDuration(TotalSeconds(s)) == "38s"
  {
    assert NatToString(38) == NatToString(3) + ['8'];
  }
}
