/** The loop of `splice` over a range of the list it inserts into, turn by turn on the bare links, so
    that also what it does to a list that is no longer well formed is covered. */
module SpliceTurns {
  import opened Sequences

  /** The two pointers of every node. */
  datatype Links<!X> = Links(prev: X -> X, next: X -> X)

  ghost function Write<X>(f: X -> X, x: X, y: X): X -> X {
    z => if z == x then y else f(z)
  }

  ghost function WithPrev<X>(l: Links<X>, x: X, y: X): Links<X> {
    Links(Write(l.prev, x, y), l.next)
  }

  ghost function WithNext<X>(l: Links<X>, x: X, y: X): Links<X> {
    Links(l.prev, Write(l.next, x, y))
  }

  /** The writes of `erase`, in order. */
  ghost function Erased<X>(l: Links<X>, x: X): Links<X> {
    var a := WithPrev(l, l.next(x), l.prev(x));
    WithNext(a, a.prev(x), a.next(x))
  }

  /** The writes of `insert`, in order. */
  ghost function Inserted<X>(l: Links<X>, x: X, before: X): Links<X> {
    var a := WithNext(l, l.prev(before), x);
    var b := WithPrev(a, x, a.prev(before));
    var c := WithNext(b, x, before);
    WithPrev(c, before, x)
  }

  /** The links and the iterator between two turns. */
  datatype Turning<!X> = Turning(links: Links<X>, it: X)

  /** One turn: take the element out, step on, and put it in front of `before`. */
  ghost function Turn<X>(t: Turning<X>, before: X): Turning<X> {
    Turning(Inserted(Erased(t.links, t.it), t.it, before), t.links.next(t.it))
  }

  ghost function Turns<X>(t: Turning<X>, before: X, n: nat): Turning<X> {
    if n == 0 then t else Turn(Turns(t, before, n - 1), before)
  }

  /** The loop ends after `n` turns. */
  ghost predicate EndsAfter<X>(t: Turning<X>, before: X, last: X, n: nat) {
    Turns(t, before, n).it == last && forall m | 0 <= m < n :: Turns(t, before, m).it != last
  }

  // ----- Well-formed lists

  /** The elements `s` between two mentions of the sentinel. */
  ghost function Ring<X>(s: seq<X>, end: X): seq<X> {
    [end] + s + [end]
  }

  /** Neighbours in `r` point at each other. */
  ghost predicate Joined<X>(l: Links<X>, r: seq<X>)
    decreases |r|
  {
    |r| < 2 || (var k := |r| - 1; l.next(r[k - 1]) == r[k] && l.prev(r[k]) == r[k - 1] && Joined(l, r[..k]))
  }

  lemma {:induction false} JoinedAt<X>(l: Links<X>, r: seq<X>, k: nat)
    requires Joined(l, r) && k + 1 < |r|
    ensures l.next(r[k]) == r[k + 1] && l.prev(r[k + 1]) == r[k]
    decreases |r|
  {
    if k + 2 < |r| { JoinedAt(l, r[..|r| - 1], k); }
  }

  lemma {:induction false} JoinedIf<X>(l: Links<X>, r: seq<X>)
    requires forall k {:trigger l.next(r[k])} :: 0 <= k < |r| - 1 ==> l.next(r[k]) == r[k + 1]
    requires forall k {:trigger l.prev(r[k])} :: 1 <= k < |r| ==> l.prev(r[k]) == r[k - 1]
    ensures Joined(l, r)
    decreases |r|
  {
    if |r| >= 2 {
      var k := |r| - 1;
      assert l.next(r[k - 1]) == r[k] && l.prev(r[k]) == r[k - 1];
      JoinedIf(l, r[..k]);
    }
  }

  /** The links make `s`, closed by the sentinel `end`, a circle. */
  ghost predicate IsRing<X>(l: Links<X>, end: X, s: seq<X>) {
    Distinct(s) && end !in s && Joined(l, Ring(s, end))
  }

  lemma RingErase<X>(l: Links<X>, end: X, s: seq<X>, k: nat)
    requires IsRing(l, end, s) && k < |s|
    ensures IsRing(Erased(l, s[k]), end, Without(s, k))
    ensures l.next(s[k]) == Pick(s, end, k + 1) && l.prev(s[k]) == Ring(s, end)[k]
  {
    var x, r, r', l' := s[k], Ring(s, end), Ring(Without(s, k), end), Erased(l, s[k]);
    assert r[k + 1] == x && r[k + 2] == Pick(s, end, k + 1);
    JoinedAt(l, r, k);
    JoinedAt(l, r, k + 1);
    DistinctWithout(s, k);
    assert forall m | 0 <= m < |r'| :: r'[m] == if m <= k then r[m] else r[m + 1];
    forall m | 0 <= m < |r'| - 1 ensures l'.next(r'[m]) == r'[m + 1] {
      if m < k { JoinedAt(l, r, m); } else if m > k { JoinedAt(l, r, m + 1); }
    }
    forall m | 1 <= m < |r'| ensures l'.prev(r'[m]) == r'[m - 1] {
      if m <= k { JoinedAt(l, r, m - 1); } else if m > k + 1 { JoinedAt(l, r, m); }
    }
    JoinedIf(l', r');
  }

  lemma RingInsert<X>(l: Links<X>, end: X, s: seq<X>, k: nat, x: X)
    requires IsRing(l, end, s) && k <= |s| && x !in s && x != end
    ensures IsRing(Inserted(l, x, Pick(s, end, k)), end, With(s, k, x))
  {
    var before, r, r' := Pick(s, end, k), Ring(s, end), Ring(With(s, k, x), end);
    var l' := Inserted(l, x, before);
    assert r[k + 1] == before;
    JoinedAt(l, r, k);
    DistinctWith(s, k, x);
    assert forall m | 0 <= m < |r'| :: r'[m] == if m <= k then r[m] else if m == k + 1 then x else r[m - 1];
    forall m | 0 <= m < |r'| - 1 ensures l'.next(r'[m]) == r'[m + 1] {
      if m < k { JoinedAt(l, r, m); } else if m > k + 1 { JoinedAt(l, r, m - 1); }
    }
    forall m | 1 <= m < |r'| ensures l'.prev(r'[m]) == r'[m - 1] {
      if m <= k { JoinedAt(l, r, m - 1); } else if m > k + 2 { JoinedAt(l, r, m - 2); }
    }
    JoinedIf(l', r');
  }

  /** A turn that does not move an element in front of itself moves it in the sequence. */
  lemma RingTurn<X>(t: Turning<X>, end: X, s: seq<X>, from: nat, to: nat)
    requires IsRing(t.links, end, s) && from < |s| && to < |s| && t.it == s[from]
    ensures var r := Turn(t, Pick(Without(s, from), end, to));
            IsRing(r.links, end, With(Without(s, from), to, s[from])) && r.it == Pick(s, end, from + 1)
  {
    RingErase(t.links, end, s, from);
    DistinctWithout(s, from);
    RingInsert(Erased(t.links, t.it), end, Without(s, from), to, t.it);
  }

  // ----- Where the loop ends well

  /** The loop at its start: the range is that from position `i` up to `j` of the list `s`, and it is
      to go in front of position `b`. */
  ghost predicate Start<X>(t: Turning<X>, end: X, s: seq<X>, b: nat, i: nat, j: nat) {
    IsRing(t.links, end, s) && i <= j <= |s| && b <= |s| && t.it == Pick(s, end, i)
  }

  /** The list after `n` elements of the range have moved. */
  ghost function AfterMoves<X>(s: seq<X>, b: nat, i: nat, n: nat): seq<X> {
    if CanRotate(s, b, i, n) then Rotated(s, b, i, n) else s
  }

  ghost predicate Moving<X>(u: Turning<X>, end: X, s: seq<X>, b: nat, i: nat, n: nat, q: seq<X>)
    requires i + n <= |s|
  {
    q == AfterMoves(s, b, i, n) && IsRing(u.links, end, q) && u.it == Pick(s, end, i + n)
  }

  lemma MoveOne<X>(u: Turning<X>, end: X, s: seq<X>, before: X, b: nat, i: nat, j: nat, n: nat, q: seq<X>)
    returns (q': seq<X>)
    requires RotationEnds(b, i, j) && i + n < j <= |s| && b <= |s| && before == Pick(s, end, b)
    requires i + n <= |s| && Moving(u, end, s, b, i, n, q)
    ensures i + n + 1 <= |s| && Moving(Turn(u, before), end, s, b, i, n + 1, q')
  {
    var from, to := RotateFrom(b, i, n), RotateTo(b, i, n);
    RotatedStep(s, b, i, j, n, end);
    RingTurn(u, end, q, from, to);
    assert Pick(q, end, from + 1) == Pick(Without(q, from), end, from);
    q' := With(Without(q, from), to, q[from]);
  }

  lemma {:induction false} MoveTurns<X>(
      t: Turning<X>, end: X, s: seq<X>, before: X, b: nat, i: nat, j: nat, n: nat) returns (q: seq<X>)
    requires RotationEnds(b, i, j) && i + n <= j <= |s| && b <= |s| && before == Pick(s, end, b)
    requires Moving(t, end, s, b, i, 0, s)
    ensures Moving(Turns(t, before, n), end, s, b, i, n, q)
    decreases n
  {
    q := s;
    if n > 0 {
      q := MoveTurns(t, end, s, before, b, i, j, n - 1);
      q := MoveOne(Turns(t, before, n - 1), end, s, before, b, i, j, n - 1, q);
    }
  }

  lemma RotateTurns<X>(t: Turning<X>, end: X, s: seq<X>, b: nat, i: nat, j: nat, n: nat)
    returns (q: seq<X>)
    requires Start(t, end, s, b, i, j) && RotationEnds(b, i, j) && n <= j - i
    ensures CanRotate(s, b, i, n) && q == Rotated(s, b, i, n)
    ensures IsRing(Turns(t, Pick(s, end, b), n).links, end, q) && Turns(t, Pick(s, end, b), n).it == Pick(s, end, i + n)
  {
    RotatedNone(s, b, i);
    q := MoveTurns(t, end, s, Pick(s, end, b), b, i, j, n);
  }

  // ----- Where it never ends

  /** The iterator is at position `i` of a well-formed list that has `before` at `b` and `last` at `j`. */
  ghost predicate Spinning<X>(u: Turning<X>, end: X, q: seq<X>, before: X, last: X, b: nat, i: nat, j: nat) {
    && IsRing(u.links, end, q) && i + 2 <= b <= j <= |q| && u.it == q[i]
    && Pick(q, end, b) == before && Pick(q, end, j) == last
  }

  lemma SpinOne<X>(u: Turning<X>, end: X, q: seq<X>, before: X, last: X, b: nat, i: nat, j: nat) returns (q': seq<X>)
    requires Spinning(u, end, q, before, last, b, i, j)
    ensures Spinning(Turn(u, before), end, q', before, last, b, i, j)
  {
    q' := With(Without(q, i), b - 1, q[i]);
    ShiftedEnds(q, i, b, j, end);
    RingTurn(u, end, q, i, b - 1);
  }

  lemma ShiftedEnds<X>(q: seq<X>, i: nat, b: nat, j: nat, end: X)
    requires i + 2 <= b <= j <= |q|
    ensures var w := Without(q, i);
            var q' := With(w, b - 1, q[i]);
            && Pick(w, end, b - 1) == Pick(q, end, b) && Pick(w, end, i) == q[i + 1] == q'[i] && |q'| == |q|
            && Pick(q', end, b) == Pick(q, end, b) && Pick(q', end, j) == Pick(q, end, j)
  {
  }

  lemma {:induction false} SpinTurns<X>(t: Turning<X>, end: X, s: seq<X>, b: nat, i: nat, j: nat, n: nat)
    returns (q: seq<X>)
    requires Start(t, end, s, b, i, j) && i + 2 <= b <= j
    ensures Spinning(Turns(t, Pick(s, end, b), n), end, q, Pick(s, end, b), Pick(s, end, j), b, i, j)
  {
    if n == 0 {
      q := s;
    } else {
      var q' := SpinTurns(t, end, s, b, i, j, n - 1);
      q := SpinOne(Turns(t, Pick(s, end, b), n - 1), end, q', Pick(s, end, b), Pick(s, end, j), b, i, j);
    }
  }

  // ----- Where it loses the range

  lemma RingFrame<X>(l: Links<X>, l': Links<X>, end: X, s: seq<X>)
    requires IsRing(l, end, s)
    requires forall y | y == end || y in s :: l'.next(y) == l.next(y) && l'.prev(y) == l.prev(y)
    ensures IsRing(l', end, s)
  {
    var r := Ring(s, end);
    forall k | 0 <= k < |r| - 1 ensures l'.next(r[k]) == r[k + 1] { JoinedAt(l, r, k); }
    forall k | 1 <= k < |r| ensures l'.prev(r[k]) == r[k - 1] { JoinedAt(l, r, k - 1); }
    JoinedIf(l', r);
  }

  /** The first `n` elements of the range have left the list for a circle of their own: the rest is
      well formed once the element in front of it points to the next one. */
  ghost predicate Lost<X>(t: Turning<X>, end: X, s: seq<X>, i: nat, n: nat)
    requires i + n <= |s|
  {
    && t.it == Pick(s, end, i + n)
    && IsRing(WithNext(t.links, Ring(s, end)[i], t.it), end, s[..i] + s[i + n..])
    && (forall y | y in s[i..i + n] :: t.links.prev(y) in s[i..i + n])
  }

  /** The first turn moves the first element in front of itself. */
  lemma OntoItself<X>(t: Turning<X>, end: X, s: seq<X>, i: nat, j: nat)
    requires Start(t, end, s, i, i, j) && i < j
    ensures var r := Turn(t, s[i]);
            r.links.next(s[i]) == s[i] == r.links.prev(s[i]) && Lost(r, end, s, i, 1)
  {
    var x, r := s[i], Turn(t, s[i]);
    RingErase(t.links, end, s, i);
    assert Without(s, i) == s[..i] + s[i + 1..];
    RingFrame(Erased(t.links, x), WithNext(r.links, Ring(s, end)[i], r.it), end, Without(s, i));
    assert s[i..i + 1] == [x];
  }

  lemma NotInRest<X>(s: seq<X>, end: X, i: nat, n: nat, p: X)
    requires Distinct(s) && end !in s && i + n < |s| && p in s[i..i + n]
    ensures p !in s[..i] + s[i + n + 1..] && p != end && p != s[i + n] && p != Pick(s, end, i + n + 1)
  {
    var k :| i <= k < i + n && s[k] == p;
  }

  lemma LoseSide<X>(l: Links<X>, x: X, before: X, side: seq<X>)
    requires before in side && x !in side && l.next(x) !in side && l.next(x) != x
    requires forall y | y in side :: l.prev(y) in side
    ensures forall y | y in side + [x] :: Inserted(Erased(l, x), x, before).prev(y) in side + [x]
  {
  }

  /** On the nodes that stay in the list, a turn does no more than `erase` does. */
  lemma LoseRest<X>(l: Links<X>, a: X, x: X, before: X, y: X)
    requires l.prev(x) == a && a != x && l.next(x) != before && before != x
    requires y != x && y != before && y != l.prev(before)
    ensures var r, e := WithNext(Inserted(Erased(l, x), x, before), a, l.next(x)), Erased(WithNext(l, a, x), x);
            r.next(y) == e.next(y) && r.prev(y) == e.prev(y)
  {
  }

  /** Every further turn takes the next element out of the list and into that circle. */
  lemma LoseOne<X>(u: Turning<X>, end: X, s: seq<X>, i: nat, n: nat)
    requires Distinct(s) && end !in s && 1 <= n && i + n < |s| && Lost(u, end, s, i, n)
    ensures Lost(Turn(u, s[i]), end, s, i, n + 1)
  {
    var l, a, x, before := u.links, Ring(s, end)[i], s[i + n], s[i];
    var rest, rest', side := s[..i] + s[i + n..], s[..i] + s[i + n + 1..], s[i..i + n];
    assert rest[i] == x && Without(rest, i) == rest' && Ring(rest, end)[i] == a;
    assert Pick(rest, end, i + 1) == Pick(s, end, i + n + 1);
    RingErase(WithNext(l, a, x), end, rest, i);
    assert side[0] == before && l.prev(before) in side;
    NotInRest(s, end, i, n, before);
    NotInRest(s, end, i, n, l.prev(before));
    LoseOut(s, end, i, n);
    assert l.prev(x) == a && l.next(x) == Pick(s, end, i + n + 1);
    forall y | y == end || y in rest'
      ensures var r, e := WithNext(Turn(u, before).links, a, l.next(x)), Erased(WithNext(l, a, x), x);
              r.next(y) == e.next(y) && r.prev(y) == e.prev(y)
    {
      LoseRest(l, a, x, before, y);
    }
    RingFrame(Erased(WithNext(l, a, x), x), WithNext(Turn(u, before).links, a, l.next(x)), end, rest');
    assert side + [x] == s[i..i + n + 1];
    LoseSide(l, x, before, side);
  }

  lemma LoseOut<X>(s: seq<X>, end: X, i: nat, n: nat)
    requires Distinct(s) && end !in s && 1 <= n && i + n < |s|
    ensures var x, next := s[i + n], Pick(s, end, i + n + 1);
            && x != end && x != Ring(s, end)[i] && x != next && x !in s[i..i + n] && next !in s[i..i + n]
            && x !in s[..i] + s[i + n + 1..]
  {
  }

  lemma {:induction false} LoseTurns<X>(t: Turning<X>, end: X, s: seq<X>, i: nat, j: nat, n: nat)
    requires Start(t, end, s, i, i, j) && 1 <= n <= j - i
    ensures Lost(Turns(t, s[i], n), end, s, i, n)
  {
    if n == 1 {
      OntoItself(t, end, s, i, j);
      assert Turns(t, s[i], 0) == t;
    } else {
      LoseTurns(t, end, s, i, j, n - 1);
      LoseOne(Turns(t, s[i], n - 1), end, s, i, n - 1);
    }
  }

  /** Whoever follows `prev` from an element of a well-formed list comes to the sentinel. */
  lemma {:induction false} BackToSentinel<X>(l: Links<X>, end: X, q: seq<X>, k: nat, side: seq<X>)
    requires IsRing(l, end, q) && k < |q| && q[k] in side && forall y | y in side :: l.prev(y) in side
    ensures end in side
  {
    JoinedAt(l, Ring(q, end), k);
    assert Ring(q, end)[k + 1] == q[k];
    if k > 0 { BackToSentinel(l, end, q, k - 1, side); }
  }

  // ----- Exactly when the loop does what it should

  /** The links make `q` a well-formed list of exactly the elements of `s`. */
  ghost predicate HoldsAll<X>(l: Links<X>, end: X, s: seq<X>, q: seq<X>) {
    IsRing(l, end, q) && SameElements(s, q)
  }

  /** After `n` turns the loop ends, and the list is then `q`. */
  ghost predicate EndsWell<X>(t: Turning<X>, before: X, last: X, end: X, s: seq<X>, n: nat, q: seq<X>) {
    EndsAfter(t, before, last, n) && HoldsAll(Turns(t, before, n).links, end, s, q)
  }

  lemma ApartIsNotAll<X>(l: Links<X>, end: X, s: seq<X>, side: seq<X>, k: nat, q: seq<X>)
    requires k < |s| && s[k] in side && end !in side && forall y | y in side :: l.prev(y) in side
    ensures !HoldsAll(l, end, s, q)
  {
    if HoldsAll(l, end, s, q) {
      assert s[k] in q;
      var m :| 0 <= m < |q| && q[m] == s[k];
      BackToSentinel(l, end, q, m, side);
    }
  }

  lemma {:induction false} TurnsShift<X>(t: Turning<X>, before: X, n: nat)
    ensures Turns(t, before, n + 1) == Turns(Turn(t, before), before, n)
  {
    if n == 0 {
      assert Turns(t, before, 0) == t;
    } else {
      TurnsShift(t, before, n - 1);
    }
  }

  lemma PickDiffers<X>(s: seq<X>, end: X, i: nat, j: nat)
    requires Distinct(s) && end !in s && i < j <= |s|
    ensures Pick(s, end, i) != Pick(s, end, j)
  {
  }

  /** The loop ends where its iterator first meets `last`. */
  lemma EndsThere<X>(t: Turning<X>, before: X, last: X, n: nat)
    requires forall m | 0 <= m <= n :: Turns(t, before, m).it == last <==> m == n
    ensures forall m: nat :: EndsAfter(t, before, last, m) <==> m == n
  {
    assert Turns(t, before, n).it == last;
  }

  lemma LoseReaches<X>(t: Turning<X>, end: X, s: seq<X>, i: nat, j: nat, m: nat)
    requires Start(t, end, s, i, i, j) && m <= j - i && i < j
    ensures Turns(t, s[i], m).it == Pick(s, end, j) <==> m == j - i
  {
    if m > 0 { LoseTurns(t, end, s, i, j, m); }
    if m < j - i { PickDiffers(s, end, i + m, j); }
  }

  lemma LoseNotAll<X>(t: Turning<X>, end: X, s: seq<X>, i: nat, j: nat, q: seq<X>)
    requires Start(t, end, s, i, i, j) && i < j
    ensures !HoldsAll(Turns(t, s[i], j - i).links, end, s, q)
  {
    LoseTurns(t, end, s, i, j, j - i);
    assert s[i..j][0] == s[i] && i + (j - i) == j;
    ApartIsNotAll(Turns(t, s[i], j - i).links, end, s, s[i..j], i, q);
  }

  /** In front of the first element of the range: the loop ends, and the range is lost. */
  lemma LosesRange<X>(t: Turning<X>, end: X, s: seq<X>, i: nat, j: nat, n: nat, q: seq<X>)
    requires Start(t, end, s, i, i, j) && i < j
    ensures EndsAfter(t, s[i], Pick(s, end, j), j - i)
    ensures !EndsWell(t, s[i], Pick(s, end, j), end, s, n, q)
  {
    forall m | 0 <= m <= j - i ensures Turns(t, s[i], m).it == Pick(s, end, j) <==> m == j - i {
      LoseReaches(t, end, s, i, j, m);
    }
    EndsThere(t, s[i], Pick(s, end, j), j - i);
    LoseNotAll(t, end, s, i, j, q);
  }

  /** Unless it ends at once, the loop ends as it does from its second turn on. */
  lemma EndsShift<X>(t: Turning<X>, before: X, last: X, n: nat)
    requires t.it != last
    ensures EndsAfter(t, before, last, n + 1) <==> EndsAfter(Turn(t, before), before, last, n)
    ensures !EndsAfter(t, before, last, 0)
  {
    var u := Turn(t, before);
    TurnsShift(t, before, n);
    if EndsAfter(t, before, last, n + 1) {
      forall m | 0 <= m < n ensures Turns(u, before, m).it != last { TurnsShift(t, before, m); }
    }
    if EndsAfter(u, before, last, n) {
      forall m | 0 <= m < n + 1 ensures Turns(t, before, m).it != last {
        if m > 0 { TurnsShift(t, before, m - 1); }
      }
    }
  }

  lemma EndsWellShift<X>(t: Turning<X>, before: X, last: X, end: X, s: seq<X>, n: nat, q: seq<X>)
    requires t.it != last && EndsWell(t, before, last, end, s, n, q)
    ensures n > 0 && EndsWell(Turn(t, before), before, last, end, s, n - 1, q)
  {
    EndsShift(t, before, last, if n > 0 then n - 1 else 0);
    TurnsShift(t, before, n - 1);
  }

  /** In front of the second element of a longer range the first turn changes nothing. */
  lemma IdleTurn<X>(t: Turning<X>, end: X, s: seq<X>, i: nat, j: nat)
    requires Start(t, end, s, i + 1, i, j) && i + 1 < j
    ensures Start(Turn(t, s[i + 1]), end, s, i + 1, i + 1, j)
  {
    RingTurn(t, end, s, i, i);
    assert With(Without(s, i), i, s[i]) == s && Pick(Without(s, i), end, i) == s[i + 1];
  }

  lemma LaterEnds<X>(t: Turning<X>, end: X, s: seq<X>, i: nat, j: nat, q: seq<X>)
    requires Start(t, end, s, i + 1, i, j) && i + 1 < j
    ensures EndsAfter(t, s[i + 1], Pick(s, end, j), j - i)
  {
    IdleTurn(t, end, s, i, j);
    PickDiffers(s, end, i, j);
    LosesRange(Turn(t, s[i + 1]), end, s, i + 1, j, 0, q);
    EndsShift(t, s[i + 1], Pick(s, end, j), j - i - 1);
  }

  lemma LaterNotWell<X>(t: Turning<X>, end: X, s: seq<X>, i: nat, j: nat, n: nat, q: seq<X>)
    requires Start(t, end, s, i + 1, i, j) && i + 1 < j
    ensures !EndsWell(t, s[i + 1], Pick(s, end, j), end, s, n, q)
  {
    IdleTurn(t, end, s, i, j);
    PickDiffers(s, end, i, j);
    LosesRange(Turn(t, s[i + 1]), end, s, i + 1, j, if n > 0 then n - 1 else 0, q);
    if EndsWell(t, s[i + 1], Pick(s, end, j), end, s, n, q) {
      EndsWellShift(t, s[i + 1], Pick(s, end, j), end, s, n, q);
    }
  }

  /** In front of the second element: after that turn the next one moves the second element in front
      of itself, the loop ends, and the range but its first element is lost. */
  lemma LosesRangeLater<X>(t: Turning<X>, end: X, s: seq<X>, i: nat, j: nat, n: nat, q: seq<X>)
    requires Start(t, end, s, i + 1, i, j) && i + 1 < j
    ensures EndsAfter(t, s[i + 1], Pick(s, end, j), j - i)
    ensures !EndsWell(t, s[i + 1], Pick(s, end, j), end, s, n, q)
  {
    LaterEnds(t, end, s, i, j, q);
    LaterNotWell(t, end, s, i, j, n, q);
  }

  lemma NeverEnds<X>(t: Turning<X>, end: X, s: seq<X>, b: nat, i: nat, j: nat, n: nat)
    requires Start(t, end, s, b, i, j) && i + 2 <= b <= j
    ensures Turns(t, Pick(s, end, b), n).it != Pick(s, end, j)
  {
    var q := SpinTurns(t, end, s, b, i, j, n);
    PickDiffers(q, end, i, j);
  }

  lemma RotateReaches<X>(t: Turning<X>, end: X, s: seq<X>, b: nat, i: nat, j: nat, m: nat)
    requires Start(t, end, s, b, i, j) && RotationEnds(b, i, j) && m <= j - i
    ensures Turns(t, Pick(s, end, b), m).it == Pick(s, end, j) <==> m == j - i
  {
    var q := RotateTurns(t, end, s, b, i, j, m);
    if m < j - i { PickDiffers(s, end, i + m, j); }
  }

  lemma RotateHolds<X>(t: Turning<X>, end: X, s: seq<X>, b: nat, i: nat, j: nat) returns (q: seq<X>)
    requires Start(t, end, s, b, i, j) && RotationEnds(b, i, j)
    ensures CanRotate(s, b, i, j - i) && q == Rotated(s, b, i, j - i) && SameElements(s, q)
    ensures IsRing(Turns(t, Pick(s, end, b), j - i).links, end, q)
  {
    q := RotateTurns(t, end, s, b, i, j, j - i);
    RotatedKeepsAll(s, b, i, j - i);
  }

  lemma MovesRange<X>(t: Turning<X>, end: X, s: seq<X>, b: nat, i: nat, j: nat) returns (q: seq<X>)
    requires Start(t, end, s, b, i, j) && RotationEnds(b, i, j)
    ensures CanRotate(s, b, i, j - i) && q == Rotated(s, b, i, j - i)
    ensures EndsWell(t, Pick(s, end, b), Pick(s, end, j), end, s, j - i, q)
  {
    forall m | 0 <= m <= j - i ensures Turns(t, Pick(s, end, b), m).it == Pick(s, end, j) <==> m == j - i {
      RotateReaches(t, end, s, b, i, j, m);
    }
    EndsThere(t, Pick(s, end, b), Pick(s, end, j), j - i);
    q := RotateHolds(t, end, s, b, i, j);
  }

  /** Splicing a range within one list ends with a well-formed list of all its elements if and only if
      it goes in front of an element before the range or behind the element after it, or is empty, or
      has one element and goes in front of the next. */
  lemma SpliceWithinExactly<X>(t: Turning<X>, end: X, s: seq<X>, b: nat, i: nat, j: nat)
    requires Start(t, end, s, b, i, j)
    ensures (exists n: nat, q :: EndsWell(t, Pick(s, end, b), Pick(s, end, j), end, s, n, q))
       <==> RotationEnds(b, i, j)
  {
    if RotationEnds(b, i, j) {
      var q := MovesRange(t, end, s, b, i, j);
    } else {
      forall n: nat, q ensures !EndsWell(t, Pick(s, end, b), Pick(s, end, j), end, s, n, q) {
        if b == i { LosesRange(t, end, s, i, j, n, q); }
        else if b == i + 1 { LosesRangeLater(t, end, s, i, j, n, q); }
        else { NeverEnds(t, end, s, b, i, j, n); }
      }
    }
  }
}
