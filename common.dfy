/** Small shared vocabulary: optional values, outcomes of remote calls and
    facts about sequences used by several components. */
module Common {

  datatype Option<+T> = None | Some(value: T)

  /** The outcome of a remote call that returns a value. */
  datatype Result<+T> = Ok(value: T) | Err

  /** The outcome of a remote call that returns nothing. */
  datatype Outcome = Done | Failed

  /** An optional string with `''` in place of a missing one (`s || ''`). */
  function OrEmpty(s: Option<string>): string {
    if s.Some? then s.value else ""
  }

  /** `sub` is obtained from `s` by deleting some elements, keeping the order of the rest. */
  predicate IsSubsequence<T(==)>(sub: seq<T>, s: seq<T>)
    decreases |s|
  {
    if s == [] then sub == []
    else IsSubsequence(sub, s[1..]) || (sub != [] && sub[0] == s[0] && IsSubsequence(sub[1..], s[1..]))
  }

  predicate NoDuplicates<T(==)>(s: seq<T>) {
    forall i, j :: 0 <= i < j < |s| ==> s[i] != s[j]
  }

  /** A subsequence has no more elements than the sequence and only elements of it. */
  lemma {:induction false} SubsequenceElements<T>(sub: seq<T>, s: seq<T>)
    requires IsSubsequence(sub, s)
    ensures |sub| <= |s|
    ensures forall x :: x in sub ==> x in s
    decreases |s|
  {
    if s != [] {
      if IsSubsequence(sub, s[1..]) {
        SubsequenceElements(sub, s[1..]);
      } else {
        SubsequenceElements(sub[1..], s[1..]);
        assert forall x :: x in sub ==> x == sub[0] || x in sub[1..];
      }
    }
  }
}
