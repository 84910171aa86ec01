/**
 * An independent account of the estimate: the session as a timeline of
 * segments in the order they elapse (each exercise, a break between each two
 * exercises, a cycle break between each two cycles), whose lengths add up to
 * the estimated total.
 */
module DurationTimeline {
  import opened Options
  import opened WorkoutTypes
  import opened SequenceUtils

  function Sum(xs: seq<nat>): nat {
    if xs == [] then 0 else xs[0] + Sum(xs[1..])
  }

  function SumAll(parts: seq<seq<nat>>): nat {
    if parts == [] then 0 else Sum(parts[0]) + SumAll(parts[1..])
  }

  /** The parts laid end to end with a `gap` segment between each two neighbours. */
  function Join(parts: seq<seq<nat>>, gap: nat): seq<nat> {
    if |parts| == 0 then []
    else if |parts| == 1 then parts[0]
    else parts[0] + [gap] + Join(parts[1..], gap)
  }

  /** One segment per exercise, in execution order. */
  function ExerciseParts(exercises: seq<Exercise>): seq<seq<nat>> {
    seq(|exercises|, i requires 0 <= i < |exercises| => [ExerciseSeconds(exercises[i])])
  }

  /** One cycle: the exercises with a break between each two. */
  function CycleTimeline(s: WorkoutSequence): seq<nat> {
    Join(ExerciseParts(s.exercises), BreakSeconds(s))
  }

  /** The whole session: the cycles with a cycle break between each two. */
  function SessionTimeline(s: WorkoutSequence): seq<nat> {
    Join(seq(CycleCount(s), _ => CycleTimeline(s)), CycleBreakSeconds(s))
  }

  lemma {:induction false} SumAppend(a: seq<nat>, b: seq<nat>)
    ensures Sum(a + b) == Sum(a) + Sum(b)
    decreases |a|
  {
    if a == [] {
      assert a + b == b;
    } else {
      assert (a + b)[1..] == a[1..] + b;
      SumAppend(a[1..], b);
    }
  }

  lemma {:induction false} SumAllAppend(a: seq<seq<nat>>, b: seq<seq<nat>>)
    ensures SumAll(a + b) == SumAll(a) + SumAll(b)
    decreases |a|
  {
    if a == [] {
      assert a + b == b;
    } else {
      assert (a + b)[1..] == a[1..] + b;
      SumAllAppend(a[1..], b);
    }
  }

  lemma SumOfJoinStep(parts: seq<seq<nat>>, gap: nat)
    requires |parts| > 1
    ensures Sum(Join(parts, gap)) == Sum(parts[0]) + gap + Sum(Join(parts[1..], gap))
  {
    var rest := Join(parts[1..], gap);
    assert Join(parts, gap) == parts[0] + [gap] + rest;
    SumAppend(parts[0] + [gap], rest);
    SumAppend(parts[0], [gap]);
    assert Sum([gap]) == gap + Sum([]);
  }

  /** Joining adds one gap for each pair of neighbours. */
  lemma {:induction false} SumOfJoin(parts: seq<seq<nat>>, gap: nat)
    requires |parts| >= 1
    ensures Sum(Join(parts, gap)) == SumAll(parts) + (|parts| - 1) * gap
    decreases |parts|
  {
    var n := |parts|;
    if n == 1 {
      assert parts[1..] == [];
    } else {
      SumOfJoinStep(parts, gap);
      SumOfJoin(parts[1..], gap);
      assert (n - 1) * gap == gap + (n - 2) * gap;
    }
  }

  /** Singleton parts joined by a gap alternate the items with the gap. */
  lemma {:induction false} JoinOfSingletons(parts: seq<seq<nat>>, xs: seq<nat>, gap: nat)
    requires |xs| >= 1 && |parts| == |xs|
    requires forall i :: 0 <= i < |xs| ==> parts[i] == [xs[i]]
    ensures |Join(parts, gap)| == 2 * |xs| - 1
    ensures forall i :: 0 <= i < |xs| ==> Join(parts, gap)[2 * i] == xs[i]
    ensures forall i :: 0 <= i < |xs| - 1 ==> Join(parts, gap)[2 * i + 1] == gap
    decreases |xs|
  {
    if |xs| > 1 {
      var tail := Join(parts[1..], gap);
      JoinOfSingletons(parts[1..], xs[1..], gap);
      var line := Join(parts, gap);
      assert line == [xs[0], gap] + tail;
      forall i | 1 <= i < |xs|
        ensures line[2 * i] == xs[i]
      {
        assert line[2 * i] == tail[2 * (i - 1)];
      }
      forall i | 1 <= i < |xs| - 1
        ensures line[2 * i + 1] == gap
      {
        assert line[2 * i + 1] == tail[2 * (i - 1) + 1];
      }
    }
  }

  lemma {:induction false} SumAllOfExerciseParts(exercises: seq<Exercise>)
    ensures SumAll(ExerciseParts(exercises)) == BaseCycleSeconds(exercises)
    decreases |exercises|
  {
    if exercises != [] {
      var n := |exercises| - 1;
      var front := exercises[..n];
      var last := ExerciseSeconds(exercises[n]);
      SumAllOfExerciseParts(front);
      assert ExerciseParts(exercises) == ExerciseParts(front) + [[last]];
      SumAllAppend(ExerciseParts(front), [[last]]);
      assert SumAll([[last]]) == last by {
        assert Sum([last]) == last + Sum([]);
      }
    }
  }

  lemma {:induction false} SumAllOfCopies(k: nat, part: seq<nat>)
    ensures SumAll(seq(k, _ => part)) == k * Sum(part)
    decreases k
  {
    if k > 0 {
      assert seq(k, _ => part)[1..] == seq(k - 1, _ => part);
      SumAllOfCopies(k - 1, part);
    }
  }

  /** A cycle lasts as long as the estimate says one pass through the exercises does. */
  lemma CycleTimelineSum(s: WorkoutSequence)
    ensures Sum(CycleTimeline(s)) == CycleSeconds(s)
  {
    SumAllOfExerciseParts(s.exercises);
    if |s.exercises| >= 1 {
      SumOfJoin(ExerciseParts(s.exercises), BreakSeconds(s));
    }
  }

  /**
   * A cycle alternates exercises and breaks: no break before the first
   * exercise, none after the last, one between each two.
   */
  lemma CycleTimelineShape(s: WorkoutSequence)
    requires |s.exercises| >= 1
    ensures |CycleTimeline(s)| == 2 * |s.exercises| - 1
    ensures forall i :: 0 <= i < |s.exercises| ==> CycleTimeline(s)[2 * i] == ExerciseSeconds(s.exercises[i])
    ensures forall i :: 0 <= i < |s.exercises| - 1 ==> CycleTimeline(s)[2 * i + 1] == BreakSeconds(s)
  {
    var xs := seq(|s.exercises|, i requires 0 <= i < |s.exercises| => ExerciseSeconds(s.exercises[i]));
    JoinOfSingletons(ExerciseParts(s.exercises), xs, BreakSeconds(s));
  }

  /** With at least one cycle, the session lasts exactly the estimated total. */
  lemma SessionTimelineSum(s: WorkoutSequence)
    requires CycleCount(s) >= 1
    ensures Sum(SessionTimeline(s)) == TotalSeconds(s)
  {
    var k := CycleCount(s);
    SumOfJoin(seq(k, _ => CycleTimeline(s)), CycleBreakSeconds(s));
    SumAllOfCopies(k, CycleTimeline(s));
    CycleTimelineSum(s);
  }

  /** A cycle count of zero leaves an empty session but a total of minus one cycle break. */
  lemma ZeroCycles(s: WorkoutSequence)
    requires CycleCount(s) == 0
    ensures SessionTimeline(s) == []
    ensures TotalSeconds(s) == -(CycleBreakSeconds(s) as int)
  {
  }
}
