/** Sequences of distinct elements, and moving elements within and between them. */
module Sequences {

  ghost predicate Distinct<X>(s: seq<X>) {
    forall i, j :: 0 <= i < j < |s| ==> s[i] != s[j]
  }

  /** `s` without its element `k`. */
  ghost function Without<X>(s: seq<X>, k: nat): seq<X>
    requires k < |s|
  {
    s[..k] + s[k + 1..]
  }

  /** `s` with `x` in front of its element `k`, or at the end. */
  ghost function With<X>(s: seq<X>, k: nat, x: X): seq<X>
    requires k <= |s|
  {
    s[..k] + [x] + s[k..]
  }

  lemma DistinctWith<X>(s: seq<X>, k: nat, x: X)
    requires k <= |s| && Distinct(s) && x !in s
    ensures Distinct(With(s, k, x))
    ensures forall y | y in With(s, k, x) :: y == x || y in s
  {
  }

  lemma DistinctWithout<X>(s: seq<X>, k: nat)
    requires k < |s| && Distinct(s)
    ensures Distinct(Without(s, k)) && s[k] !in Without(s, k)
    ensures forall y | y in Without(s, k) :: y in s
  {
  }

  ghost function Pick<X>(s: seq<X>, end: X, k: nat): X
    requires k <= |s|
  {
    if k < |s| then s[k] else end
  }

  /** Framing with an end marker on both sides shifts positions by one. */
  lemma Framed<X>(s: seq<X>, k: nat, x: X, end: X)
    requires k <= |s|
    ensures [end] + With(s, k, x) + [end] == With([end] + s + [end], k + 1, x)
    ensures k < |s| ==> [end] + Without(s, k) + [end] == Without([end] + s + [end], k + 1)
  {
  }

  /** A range of `n` elements from position `i` on can move to position `b` of the same sequence. */
  ghost predicate CanRotate<X>(s: seq<X>, b: nat, i: nat, n: nat) {
    i + n <= |s| && b <= |s| && (b <= i || b >= i + n)
  }

  /** Where the element at position `k` comes from when the range moves. */
  ghost function Source(b: nat, i: nat, n: nat, k: nat): nat {
    if b <= i then
      if b <= k < b + n then k - b + i else if b + n <= k < i + n then k - n else k
    else
      if i <= k < b - n then k + n else if b - n <= k < b then k - b + n + i else k
  }

  /** `s` with that range moved in front of what was at position `b`. */
  ghost function Rotated<X>(s: seq<X>, b: nat, i: nat, n: nat): (r: seq<X>)
    requires CanRotate(s, b, i, n)
    ensures |r| == |s|
  {
    seq(|s|, k requires 0 <= k < |s| => s[Source(b, i, n, k)])
  }

  /** The same in one piece: the range, what it passes over, and the rest. */
  lemma RotatedPieces<X>(s: seq<X>, b: nat, i: nat, n: nat)
    requires CanRotate(s, b, i, n)
    ensures Rotated(s, b, i, n) == if b <= i then s[..b] + s[i..i + n] + s[b..i] + s[i + n..]
                                   else s[..i] + s[i + n..b] + s[i..i + n] + s[b..]
  {
  }

  /** `q` has the elements of `s`, as many and each of them. */
  ghost predicate SameElements<X>(s: seq<X>, q: seq<X>) {
    |q| == |s| && forall k | 0 <= k < |s| :: s[k] in q
  }

  /** The same for the range up to position `j`. */
  lemma RotatedRange<X>(s: seq<X>, b: nat, i: nat, j: nat)
    requires i <= j && CanRotate(s, b, i, j - i)
    ensures b <= i ==> Rotated(s, b, i, j - i) == s[..b] + s[i..j] + s[b..i] + s[j..]
    ensures b > i ==> Rotated(s, b, i, j - i) == s[..i] + s[j..b] + s[i..j] + s[b..]
  {
    RotatedPieces(s, b, i, j - i);
    assert i + (j - i) == j;
  }

  lemma RotatedKeepsAll<X>(s: seq<X>, b: nat, i: nat, n: nat)
    requires CanRotate(s, b, i, n)
    ensures SameElements(s, Rotated(s, b, i, n))
  {
    var q := Rotated(s, b, i, n);
    forall k | 0 <= k < |s| ensures s[k] in q {
      var m := if b <= i then (if b <= k < i then k + n else if i <= k < i + n then k - i + b else k)
               else (if i <= k < i + n then k - i + b - n else if i + n <= k < b then k - n else k);
      assert q[m] == s[k];
    }
  }

  /** Where the next element is found, and where it goes once it was taken out. */
  ghost function RotateFrom(b: nat, i: nat, n: nat): nat {
    if b <= i then i + n else i
  }

  ghost function RotateTo(b: nat, i: nat, n: nat): nat
    requires b <= i || b > i + n
  {
    if b <= i then b + n else b - 1
  }

  lemma ShiftedAt<X>(r: seq<X>, from: nat, to: nat, k: nat)
    requires from < |r| && to < |r| && k < |r|
    ensures |With(Without(r, from), to, r[from])| == |r|
    ensures With(Without(r, from), to, r[from])[k]
         == if k == to then r[from] else if from <= k < to then r[k + 1] else if to < k <= from then r[k - 1] else r[k]
  {
    var w := Without(r, from);
    assert forall m | 0 <= m < |w| :: w[m] == if m < from then r[m] else r[m + 1];
  }

  lemma RotatedUp<X>(s: seq<X>, b: nat, i: nat, n: nat, k: nat)
    requires i + n < |s| && b < i && k < |s|
    ensures var r := Rotated(s, b, i, n);
            r[i + n] == s[i + n] && With(Without(r, i + n), b + n, r[i + n])[k] == Rotated(s, b, i, n + 1)[k]
  {
    ShiftedAt(Rotated(s, b, i, n), i + n, b + n, k);
  }

  lemma RotatedDown<X>(s: seq<X>, b: nat, i: nat, n: nat, k: nat)
    requires i + n < b <= |s| && k < |s|
    ensures var r := Rotated(s, b, i, n);
            r[i] == s[i + n] && With(Without(r, i), b - 1, r[i])[k] == Rotated(s, b, i, n + 1)[k]
  {
    ShiftedAt(Rotated(s, b, i, n), i, b - 1, k);
  }

  lemma RotatedTurn<X>(s: seq<X>, b: nat, i: nat, n: nat)
    requires i + n < |s| && CanRotate(s, b, i, n) && CanRotate(s, b, i, n + 1) && b != i
    ensures var r, from, to := Rotated(s, b, i, n), RotateFrom(b, i, n), RotateTo(b, i, n);
            && from < |s| && to < |s| && r[from] == s[i + n]
            && With(Without(r, from), to, s[i + n]) == Rotated(s, b, i, n + 1)
  {
    var r, from, to := Rotated(s, b, i, n), RotateFrom(b, i, n), RotateTo(b, i, n);
    if b < i { RotatedUp(s, b, i, n, 0); } else { RotatedDown(s, b, i, n, 0); }
    ShiftedAt(r, from, to, 0);
    forall k | 0 <= k < |s| ensures With(Without(r, from), to, r[from])[k] == Rotated(s, b, i, n + 1)[k] {
      if b < i { RotatedUp(s, b, i, n, k); } else { RotatedDown(s, b, i, n, k); }
    }
  }

  lemma RotatedNone<X>(s: seq<X>, b: nat, i: nat)
    requires CanRotate(s, b, i, 0)
    ensures Rotated(s, b, i, 0) == s
  {
  }

  /** Moving the elements from `i` up to `j` one by one in front of position `b` comes to an end: `b`
      is in front of the range, or behind the element after it, or the range is that short. */
  ghost predicate RotationEnds(b: nat, i: nat, j: nat) {
    i == j || b < i || b > j || b == j == i + 1
  }

  lemma RotatedStep<X>(s: seq<X>, b: nat, i: nat, j: nat, n: nat, end: X)
    requires RotationEnds(b, i, j) && CanRotate(s, b, i, n) && i + n < j <= |s|
    ensures CanRotate(s, b, i, n + 1)
    ensures var r, from, to := Rotated(s, b, i, n), RotateFrom(b, i, n), RotateTo(b, i, n);
            && from < |r| == |s| && r[from] == s[i + n] && to < |s|
            && With(Without(r, from), to, s[i + n]) == Rotated(s, b, i, n + 1)
            && Pick(Without(r, from), end, from) == Pick(s, end, i + n + 1)
            && Pick(Without(r, from), end, to) == Pick(s, end, b)
            && Pick(Rotated(s, b, i, n + 1), end, to + 1) == Pick(s, end, b)
  {
    RotatedTurn(s, b, i, n);
    RotatedNext(s, b, i, n, end);
  }

  lemma RotatedNext<X>(s: seq<X>, b: nat, i: nat, n: nat, end: X)
    requires i + n < |s| && CanRotate(s, b, i, n) && CanRotate(s, b, i, n + 1) && b != i && (i + n + 1 == b ==> n == 0)
    ensures var r, from, to := Rotated(s, b, i, n), RotateFrom(b, i, n), RotateTo(b, i, n);
            && from < |r| && to < |r|
            && Pick(Without(r, from), end, from) == Pick(s, end, i + n + 1)
            && Pick(Without(r, from), end, to) == Pick(s, end, b)
            && Pick(Rotated(s, b, i, n + 1), end, to + 1) == Pick(s, end, b)
  {
    var r, from := Rotated(s, b, i, n), RotateFrom(b, i, n);
    var w := Without(r, from);
    assert forall m | 0 <= m < |w| :: w[m] == if m < from then r[m] else r[m + 1];
  }

  /** `mine` after `n` elements of `theirs`, from position `i` on, were put at position `b`. */
  ghost function Moved<X>(mine: seq<X>, b: nat, theirs: seq<X>, i: nat, n: nat): seq<X>
    requires b <= |mine| && i + n <= |theirs|
  {
    mine[..b] + theirs[i..i + n] + mine[b..]
  }

  /** `theirs` without those elements. */
  ghost function Remaining<X>(theirs: seq<X>, i: nat, n: nat): seq<X>
    requires i + n <= |theirs|
  {
    theirs[..i] + theirs[i + n..]
  }

  lemma MovedNone<X>(mine: seq<X>, b: nat, theirs: seq<X>, i: nat)
    requires b <= |mine| && i <= |theirs|
    ensures Moved(mine, b, theirs, i, 0) == mine && Remaining(theirs, i, 0) == theirs
  {
  }

  lemma MovedRange<X>(mine: seq<X>, b: nat, theirs: seq<X>, i: nat, j: nat)
    requires b <= |mine| && i <= j <= |theirs|
    ensures Moved(mine, b, theirs, i, j - i) == mine[..b] + theirs[i..j] + mine[b..]
    ensures Remaining(theirs, i, j - i) == theirs[..i] + theirs[j..]
  {
    assert i + (j - i) == j;
  }

  lemma MovedStep<X>(mine: seq<X>, b: nat, theirs: seq<X>, i: nat, n: nat, end: X)
    requires b <= |mine| && i + n < |theirs|
    ensures Moved(mine, b, theirs, i, n + 1) == With(Moved(mine, b, theirs, i, n), b + n, theirs[i + n])
    ensures Remaining(theirs, i, n + 1) == Without(Remaining(theirs, i, n), i)
    ensures Remaining(theirs, i, n)[i] == theirs[i + n]
    ensures Pick(Moved(mine, b, theirs, i, n), end, b + n) == Pick(mine, end, b)
    ensures Pick(Remaining(theirs, i, n + 1), end, i) == Pick(theirs, end, i + n + 1)
  {
  }
}
