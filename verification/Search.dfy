/** `std::lower_bound` over a sorted range. */
module Search {

  ghost predicate Sorted(s: seq<nat>) {
    forall i, j :: 0 <= i < j < |s| ==> s[i] <= s[j]
  }

  /** The first position whose element is not below `value`. */
  ghost predicate IsLowerBound(s: seq<nat>, value: nat, k: nat) {
    k <= |s| && (forall i :: 0 <= i < k ==> s[i] < value) && (forall i :: k <= i < |s| ==> s[i] >= value)
  }

  method LowerBound(s: seq<nat>, value: nat) returns (k: nat)
    requires Sorted(s)
    ensures IsLowerBound(s, value, k)
  {
    var first: nat, count: nat := 0, |s|;
    while count > 0
      invariant first + count <= |s|
      invariant forall i :: 0 <= i < first ==> s[i] < value
      invariant forall i :: first + count <= i < |s| ==> s[i] >= value
    {
      var step := count / 2;
      if s[first + step] < value {
        first := first + step + 1;
        count := count - (step + 1);
      } else {
        count := step;
      }
    }
    k := first;
  }
}
