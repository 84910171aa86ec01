/**
 * Local persistence of workout sequences: one key of a browser key-value
 * store holds the whole list. Every write reads the list, changes it in
 * memory and writes it back; clearing removes the key; reads only read.
 */
module WorkoutStorage {
  import opened Options
  import opened WorkoutTypes

  /** The one key this layer reads and writes. */
  const StorageKey: string := "workout-sequences"

  /**
   * What the store holds under StorageKey, as far as reading it goes: no
   * entry, the empty string, text that does not parse as a list of records,
   * or a parsed list of records.
   */
  datatype Stored = Absent | Empty | Corrupt | Parsed(records: seq<WorkoutSequence>)

  // ---------------------------------------------------------------------
  // The list operations behind the store

  /** Every record has a sequence type. */
  predicate Normalized(records: seq<WorkoutSequence>) {
    forall r :: r in records ==> r.kind.Some?
  }

  /** The migration applied to a record as it is read: a missing type means "workout". */
  function Normalize(r: WorkoutSequence): (n: WorkoutSequence)
    ensures n.kind.Some?
    ensures r.kind.Some? ==> n == r
    ensures r.kind.None? ==> n.kind == Some(Workout)
    ensures n.(kind := r.kind) == r
  {
    r.(kind := Some(r.kind.GetOr(Workout)))
  }

  function NormalizeAll(records: seq<WorkoutSequence>): (ns: seq<WorkoutSequence>)
    ensures |ns| == |records|
    ensures forall i :: 0 <= i < |records| ==> ns[i] == Normalize(records[i])
    ensures Normalized(ns)
  {
    if records == [] then [] else [Normalize(records[0])] + NormalizeAll(records[1..])
  }

  /** The records a read yields: none unless the entry parsed, each with its type filled in. */
  function ReadRecords(st: Stored): (rs: seq<WorkoutSequence>)
    ensures Normalized(rs)
    ensures st.Parsed? ==> |rs| == |st.records|
    ensures st.Parsed? ==> forall i :: 0 <= i < |rs| ==> rs[i] == Normalize(st.records[i])
    ensures !st.Parsed? ==> rs == []
  {
    match st
    case Parsed(records) => NormalizeAll(records)
    case _ => []
  }

  /** The records of one type, in their stored order. */
  function FilterByType(records: seq<WorkoutSequence>, kind: SequenceType): (rs: seq<WorkoutSequence>)
    ensures |rs| <= |records|
    ensures forall r :: r in rs <==> r in records && r.kind == Some(kind)
  {
    if records == [] then []
    else
      var rest := FilterByType(records[1..], kind);
      if records[0].kind == Some(kind) then [records[0]] + rest else rest
  }

  /** The position of the first record with the given id, if there is one. */
  function FindIndex(records: seq<WorkoutSequence>, id: string): (r: Option<nat>)
    ensures r.Some? ==> r.value < |records| && records[r.value].id == id
    ensures r.Some? ==> forall j :: 0 <= j < r.value ==> records[j].id != id
    ensures r.None? ==> forall j :: 0 <= j < |records| ==> records[j].id != id
  {
    if records == [] then None
    else if records[0].id == id then Some(0)
    else match FindIndex(records[1..], id)
      case Some(i) => Some(i + 1)
      case None => None
  }

  /** The first record with the given id, if there is one. */
  function FindById(records: seq<WorkoutSequence>, id: string): (r: Option<WorkoutSequence>)
    ensures r.Some? ==> r.value in records && r.value.id == id
    ensures r.Some? ==> exists i :: 0 <= i < |records| && records[i] == r.value &&
                                  forall j :: 0 <= j < i ==> records[j].id != id
    ensures r.None? <==> forall x :: x in records ==> x.id != id
  {
    match FindIndex(records, id)
    case Some(i) => Some(records[i])
    case None => None
  }

  /** The records whose id differs from the given one, in their stored order. */
  function RemoveId(records: seq<WorkoutSequence>, id: string): (rs: seq<WorkoutSequence>)
    ensures |rs| <= |records|
    ensures forall r :: r in rs <==> r in records && r.id != id
  {
    if records == [] then []
    else
      var rest := RemoveId(records[1..], id);
      if records[0].id != id then [records[0]] + rest else rest
  }

  // ---------------------------------------------------------------------
  // The store

  /**
   * The browser's local storage as this layer sees it. `available` says
   * whether a storage backend exists at all in the execution context;
   * `writable` says whether it accepts writes and removals (a full quota or a
   * permission error makes them throw). `stored` is the entry under
   * StorageKey and `others` the entries under every other key.
   */
  class SequenceStore {
    var available: bool
    var writable: bool
    var stored: Stored
    var others: map<string, string>

    ghost predicate Valid()
      reads this
    {
      StorageKey !in others
    }

    /** The keys that have an entry in the backend. */
    function Keys(): set<string>
      reads this
    {
      if stored.Absent? then others.Keys else others.Keys + {StorageKey}
    }

    constructor (available: bool, writable: bool, stored: Stored, others: map<string, string>)
      requires StorageKey !in others
      ensures Valid()
      ensures this.available == available && this.writable == writable
      ensures this.stored == stored && this.others == others
    {
      this.available := available;
      this.writable := writable;
      this.stored := stored;
      this.others := others;
    }

    /**
     * The stored sequences, each with its type filled in, optionally only
     * those of one type. Without a backend, or when the entry is missing,
     * empty or unreadable, there are none.
     */
    function GetSequences(kind: Option<SequenceType>): (rs: seq<WorkoutSequence>)
      reads this
      ensures Normalized(rs)
      ensures !available || !stored.Parsed? ==> rs == []
      ensures available && kind.None? ==> rs == ReadRecords(stored)
      ensures kind.Some? ==> forall r :: r in rs <==> available && r in ReadRecords(stored) && r.kind == kind
      ensures available && kind.Some? ==> rs == FilterByType(ReadRecords(stored), kind.value)
    {
      if !available then []
      else
        var all := ReadRecords(stored);
        match kind
        case Some(k) => FilterByType(all, k)
        case None => all
    }

    /** The sequences of type workout. */
    function GetWorkoutSequences(): (rs: seq<WorkoutSequence>)
      reads this
      ensures forall r :: r in rs <==> r in GetSequences(None) && r.kind == Some(Workout)
      ensures rs == FilterByType(GetSequences(None), Workout)
    {
      GetSequences(Some(Workout))
    }

    /** The sequences of type warmup. */
    function GetWarmupSequences(): (rs: seq<WorkoutSequence>)
      reads this
      ensures forall r :: r in rs <==> r in GetSequences(None) && r.kind == Some(Warmup)
      ensures rs == FilterByType(GetSequences(None), Warmup)
    {
      GetSequences(Some(Warmup))
    }

    /** The first stored sequence with the given id, or none. */
    function GetSequenceById(id: string): (r: Option<WorkoutSequence>)
      reads this
      ensures r.Some? ==> r.value.id == id && r.value in GetSequences(None)
      ensures r.Some? ==> var all := GetSequences(None);
        exists i :: 0 <= i < |all| && all[i] == r.value && forall j :: 0 <= j < i ==> all[j].id != id
      ensures r.None? <==> forall x :: x in GetSequences(None) ==> x.id != id
    {
      FindById(GetSequences(None), id)
    }

    /**
     * Appends a sequence to the stored list, whether or not its id is
     * already there. An unreadable entry counts as an empty list and is
     * overwritten.
     */
    method SaveSequence(sequence: WorkoutSequence) returns (ok: bool)
      requires Valid()
      modifies this`stored
      ensures Valid()
      ensures ok <==> available && writable
      ensures ok ==> stored == Parsed(old(GetSequences(None)) + [sequence])
      ensures !ok ==> stored == old(stored)
      ensures ok ==> GetSequences(None) == old(GetSequences(None)) + [Normalize(sequence)]
      ensures ok && old(GetSequenceById(sequence.id)).None? ==> GetSequenceById(sequence.id) == Some(Normalize(sequence))
      ensures ok && old(GetSequenceById(sequence.id)).Some? ==> GetSequenceById(sequence.id) == old(GetSequenceById(sequence.id))
    {
      if !available {
        return false;
      }
      var existing := GetSequences(None);
      var updated := existing + [sequence];
      if !writable {
        return false;
      }
      stored := Parsed(updated);
      ReadAfterAppend(existing, sequence);
      FindByIdAfterAppend(existing, Normalize(sequence), sequence.id);
      return true;
    }

    /**
     * Replaces the first stored sequence with the same id by the given one,
     * stamped with `now` as its update time. Nothing is written when no
     * stored sequence has that id.
     */
    method UpdateSequence(updatedSequence: WorkoutSequence, now: nat) returns (ok: bool)
      requires Valid()
      modifies this`stored
      ensures Valid()
      ensures ok <==> available && writable && old(FindIndex(GetSequences(None), updatedSequence.id)).Some?
      ensures !ok ==> stored == old(stored)
      ensures ok ==>
        var index := old(FindIndex(GetSequences(None), updatedSequence.id)).value;
        stored == Parsed(old(GetSequences(None))[index := updatedSequence.(updatedAt := now)])
      ensures ok ==>
        var index := old(FindIndex(GetSequences(None), updatedSequence.id)).value;
        GetSequences(None) == old(GetSequences(None))[index := Normalize(updatedSequence.(updatedAt := now))]
      ensures ok ==> GetSequenceById(updatedSequence.id) == Some(Normalize(updatedSequence.(updatedAt := now)))
    {
      if !available {
        return false;
      }
      var sequences := GetSequences(None);
      var index := FindIndex(sequences, updatedSequence.id);
      if index.None? {
        return false;
      }
      var replacement := updatedSequence.(updatedAt := now);
      sequences := sequences[index.value := replacement];
      if !writable {
        return false;
      }
      stored := Parsed(sequences);
      ReadAfterReplace(old(GetSequences(None)), index.value, replacement);
      FindByIdAfterReplace(old(GetSequences(None)), index.value, Normalize(replacement));
      return true;
    }

    /** Removes every stored sequence with the given id; succeeds even when none has it. */
    method DeleteSequence(id: string) returns (ok: bool)
      requires Valid()
      modifies this`stored
      ensures Valid()
      ensures ok <==> available && writable
      ensures ok ==> stored == Parsed(RemoveId(old(GetSequences(None)), id))
      ensures !ok ==> stored == old(stored)
      ensures ok ==> GetSequences(None) == RemoveId(old(GetSequences(None)), id)
      ensures ok ==> GetSequenceById(id).None?
    {
      if !available {
        return false;
      }
      var sequences := GetSequences(None);
      var filtered := RemoveId(sequences, id);
      if !writable {
        return false;
      }
      stored := Parsed(filtered);
      NormalizeAllOfNormalized(filtered);
      return true;
    }

    /** Removes the entry under StorageKey and no other. */
    method ClearAllSequences() returns (ok: bool)
      requires Valid()
      modifies this`stored
      ensures Valid()
      ensures ok <==> available && writable
      ensures ok ==> stored == Absent && GetSequences(None) == []
      ensures ok ==> Keys() == old(Keys()) - {StorageKey}
      ensures !ok ==> stored == old(stored)
    {
      if !available || !writable {
        return false;
      }
      stored := Absent;
      return true;
    }
  }

  // ---------------------------------------------------------------------
  // Properties of the list operations

  /** Reading back records that already carry a type leaves them as they are. */
  lemma {:induction false} NormalizeAllOfNormalized(records: seq<WorkoutSequence>)
    requires Normalized(records)
    ensures NormalizeAll(records) == records
  {
    assert forall i :: 0 <= i < |records| ==> records[i] in records;
  }

  /** A record appended to a read list reads back after it, with its type filled in. */
  lemma ReadAfterAppend(records: seq<WorkoutSequence>, r: WorkoutSequence)
    requires Normalized(records)
    ensures ReadRecords(Parsed(records + [r])) == records + [Normalize(r)]
  {
    var all := records + [r];
    assert forall i :: 0 <= i < |records| ==> all[i] == records[i] && records[i] in records;
  }

  /** A record written in place of another reads back in the same position. */
  lemma ReadAfterReplace(records: seq<WorkoutSequence>, i: nat, r: WorkoutSequence)
    requires Normalized(records) && i < |records|
    ensures ReadRecords(Parsed(records[i := r])) == records[i := Normalize(r)]
  {
    var all := records[i := r];
    assert forall j :: 0 <= j < |records| && j != i ==> all[j] == records[j] && records[j] in records;
  }

  /** Looking up an id that was absent finds the record appended with it. */
  lemma FindByIdAfterAppend(records: seq<WorkoutSequence>, r: WorkoutSequence, id: string)
    requires r.id == id
    ensures FindById(records, id).None? ==> FindById(records + [r], id) == Some(r)
    ensures FindById(records, id).Some? ==> FindById(records + [r], id) == FindById(records, id)
  {
    var all := records + [r];
    if FindById(records, id).None? {
      assert forall j :: 0 <= j < |records| ==> all[j] == records[j] && records[j] in records;
      var k := FindIndex(all, id);
      assert all[|records|].id == id;
      assert k.Some? && k.value == |records|;
    } else {
      var i := FindIndex(records, id).value;
      assert forall j :: 0 <= j <= i ==> all[j] == records[j];
      var k := FindIndex(all, id);
      assert k.Some? && k.value == i;
    }
  }

  /** Replacing the first record with an id by another with that id keeps it the first. */
  lemma FindByIdAfterReplace(records: seq<WorkoutSequence>, i: nat, r: WorkoutSequence)
    requires FindIndex(records, r.id) == Some(i)
    ensures FindById(records[i := r], r.id) == Some(r)
  {
    var all := records[i := r];
    assert forall j :: 0 <= j < i ==> all[j] == records[j];
    var k := FindIndex(all, r.id);
    assert all[i].id == r.id;
    assert k.Some? && k.value == i;
  }

  /** Filtering distributes over concatenation, so it keeps the stored order. */
  lemma {:induction false} FilterByTypeAppend(a: seq<WorkoutSequence>, b: seq<WorkoutSequence>, kind: SequenceType)
    ensures FilterByType(a + b, kind) == FilterByType(a, kind) + FilterByType(b, kind)
    decreases |a|
  {
    if a == [] {
      assert a + b == b;
    } else {
      assert (a + b)[1..] == a[1..] + b;
      FilterByTypeAppend(a[1..], b, kind);
    }
  }

  /** Every read record is a workout or a warm-up, so the two filtered reads split the list. */
  lemma {:induction false} FilterByTypePartition(records: seq<WorkoutSequence>)
    requires Normalized(records)
    ensures |FilterByType(records, Workout)| + |FilterByType(records, Warmup)| == |records|
    decreases |records|
  {
    if records != [] {
      assert records[0] in records;
      assert forall r :: r in records[1..] ==> r in records;
      FilterByTypePartition(records[1..]);
      var w := FilterByType(records[1..], Workout);
      var u := FilterByType(records[1..], Warmup);
      if records[0].kind == Some(Workout) {
        assert FilterByType(records, Workout) == [records[0]] + w;
        assert FilterByType(records, Warmup) == u;
      } else {
        assert records[0].kind.Some? && records[0].kind.value != Workout;
        assert records[0].kind == Some(Warmup);
        assert FilterByType(records, Workout) == w;
        assert FilterByType(records, Warmup) == [records[0]] + u;
      }
    }
  }

  /** Removal distributes over concatenation, so the remaining records keep their order. */
  lemma {:induction false} RemoveIdAppend(a: seq<WorkoutSequence>, b: seq<WorkoutSequence>, id: string)
    ensures RemoveId(a + b, id) == RemoveId(a, id) + RemoveId(b, id)
    decreases |a|
  {
    if a == [] {
      assert a + b == b;
    } else {
      assert (a + b)[1..] == a[1..] + b;
      RemoveIdAppend(a[1..], b, id);
    }
  }

  /** Removing an id no record has changes nothing. */
  lemma {:induction false} RemoveIdAbsent(records: seq<WorkoutSequence>, id: string)
    requires forall r :: r in records ==> r.id != id
    ensures RemoveId(records, id) == records
    decreases |records|
  {
    if records != [] {
      assert records[0] in records;
      assert forall r :: r in records[1..] ==> r in records;
      RemoveIdAbsent(records[1..], id);
    }
  }

  /** Deleting an id twice leaves the same list as deleting it once. */
  lemma RemoveIdIdempotent(records: seq<WorkoutSequence>, id: string)
    ensures RemoveId(RemoveId(records, id), id) == RemoveId(records, id)
  {
    RemoveIdAbsent(RemoveId(records, id), id);
  }
}
