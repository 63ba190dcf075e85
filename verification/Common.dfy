/** Small value types and counting facts shared by the other modules. */
module Common {

  datatype Option<+T> = None | Some(value: T)

  datatype Result<+T, +E> = Ok(value: T) | Err(error: E)

  ghost predicate Distinct<T>(s: seq<T>) {
    forall i, j | 0 <= i < j < |s| :: s[i] != s[j]
  }

  // What holds at one point of a run and passes from each to the next holds later.
  lemma {:induction false} Along(holds: seq<bool>, first: nat, last: nat)
    requires first <= last < |holds| && holds[first]
    requires forall k | first <= k < last && holds[k] :: holds[k + 1]
    ensures holds[last]
  {
    if first < last {
      Along(holds, first, last - 1);
      assert holds[last - 1];
    }
  }

  // A sequence without repetition is no longer than a set holding its elements.
  lemma {:induction false} DistinctFits<T>(s: seq<T>, u: set<T>)
    requires Distinct(s)
    requires forall i | 0 <= i < |s| :: s[i] in u
    ensures |s| <= |u|
  {
    if s != [] {
      var last := s[|s| - 1];
      DistinctFits(s[..|s| - 1], u - {last});
    }
  }

  lemma {:induction false} SubsetFits<T>(a: set<T>, b: set<T>)
    requires a <= b
    ensures |a| <= |b|
  {
    if a != {} {
      var x :| x in a;
      SubsetFits(a - {x}, b - {x});
    }
  }
}
