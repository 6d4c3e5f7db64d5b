/** Values shared by the tick logic and the job lifecycle: identifiers,
    timestamps, the job status, an Option type, and the insertion-ordered
    key list that stands for the iteration order of a JavaScript `Map`. */
module Common {

  /** A job identifier (`proc_<time>_<random>`); generated outside the model. */
  type Id = string

  /** An ISO-8601 timestamp; the wall clock is outside the model. */
  type Timestamp = string

  datatype Option<+T> = None | Some(value: T)

  /** The `status` field of a process record. `Active` is the only value a
      registered job carries; the others are written on termination. */
  datatype Status = Active | Completed | Failed | Stopped | Timeout

  predicate Distinct(s: seq<Id>)
  {
    forall i, j :: 0 <= i < j < |s| ==> s[i] != s[j]
  }

  /** The key order left behind by `Map.prototype.delete(x)`: `x` is dropped,
      every other key keeps its relative position. */
  function Without(s: seq<Id>, x: Id): (r: seq<Id>)
    ensures forall y :: y in r <==> y in s && y != x
    ensures x !in s ==> r == s
    ensures Distinct(s) ==> Distinct(r)
    ensures Distinct(s) && x in s ==> |r| == |s| - 1
  {
    if s == [] then []
    else if s[0] == x then Without(s[1..], x)
    else
      var rest := Without(s[1..], x);
      assert Distinct(s) ==> s[0] !in s[1..];
      [s[0]] + rest
  }

  /** A list without repetitions has as many elements as its set. */
  lemma {:induction false} DistinctElements(s: seq<Id>)
    requires Distinct(s)
    ensures |(set x | x in s)| == |s|
  {
    if s != [] {
      assert Distinct(s[1..]);
      DistinctElements(s[1..]);
      assert (set x | x in s) == {s[0]} + (set x | x in s[1..]);
      assert s[0] !in (set x | x in s[1..]);
    }
  }

  /** In a list without repetitions, dropping the element at position `k`
      is cutting that position out. */
  lemma {:induction false} WithoutAt(s: seq<Id>, k: int)
    requires Distinct(s) && 0 <= k < |s|
    ensures Without(s, s[k]) == s[..k] + s[k + 1..]
  {
    if k == 0 {
      assert s[0] !in s[1..];
      assert s[1..] == s[..0] + s[1..];
    } else {
      assert s[1..][k - 1] == s[k];
      assert Distinct(s[1..]);
      WithoutAt(s[1..], k - 1);
      assert s[0] != s[k];
      assert s[..k] == [s[0]] + s[1..][..k - 1];
      assert s[k + 1..] == s[1..][k..];
    }
  }
}
