/** The circular doubly linked list whose links live inside the items. */
module IntrusiveList {
  import opened Sequences
  import opened SpliceTurns

  class ListItem<T(0)> {
    var prev: ListItem?<T>
    var next: ListItem?<T>
    var value: T

    constructor (value: T)
      ensures this.value == value && prev == null && next == null
    {
      prev, next := null, null;
      this.value := value;
    }

    /** A sentinel starts as a circle of its own and carries no value of interest. */
    constructor Sentinel()
      ensures prev == this && next == this
    {
      prev, next := this, this;
    }
  }

  /** Neighbours in `ring` point at each other. */
  ghost predicate Linked<T(0)>(ring: seq<ListItem<T>>)
    reads ring
  {
    && (forall i {:trigger ring[i].next} :: 0 <= i < |ring| - 1 ==> ring[i].next == ring[i + 1])
    && (forall i {:trigger ring[i].prev} :: 1 <= i < |ring| ==> ring[i].prev == ring[i - 1])
  }

  /** Nothing but the ends of `ring` coincide. */
  ghost predicate Circular<X>(ring: seq<X>) {
    && (forall i, j :: 0 <= i < j < |ring| - 1 ==> ring[i] != ring[j])
    && (forall i, j :: 1 <= i < j < |ring| ==> ring[i] != ring[j])
  }

  /** All links of `ring` are in place, but perhaps not the `next` of element `a` and the `prev` of `b`. */
  ghost predicate LinkedExcept<T(0)>(ring: seq<ListItem<T>>, a: int, b: int)
    reads ring
  {
    && (forall i {:trigger ring[i].next} :: 0 <= i < |ring| - 1 && i != a ==> ring[i].next == ring[i + 1])
    && (forall i {:trigger ring[i].prev} :: 1 <= i < |ring| && i != b ==> ring[i].prev == ring[i - 1])
  }

  /** Hooking `item` in between two neighbours inserts it into the ring. */
  lemma Hooked<T(0)>(ring: seq<ListItem<T>>, k: nat, item: ListItem<T>)
    requires 1 <= k < |ring| && LinkedExcept(ring, k - 1, k)
    requires item.prev == ring[k - 1] && item.next == ring[k]
    requires ring[k - 1].next == item && ring[k].prev == item
    ensures Linked(With(ring, k, item))
  {
    var ring' := With(ring, k, item);
    forall i | 0 <= i < |ring'| - 1 ensures ring'[i].next == ring'[i + 1] {
      if i < k - 1 { assert ring[i].next == ring[i + 1]; }
      if i > k { assert ring[i - 1].next == ring[i]; }
    }
    forall i | 1 <= i < |ring'| ensures ring'[i].prev == ring'[i - 1] {
      if i < k { assert ring[i].prev == ring[i - 1]; }
      if i > k + 1 { assert ring[i - 1].prev == ring[i - 2]; }
    }
  }

  /** Pointing the neighbours of element `k` at each other removes it from the ring. */
  lemma Unhooked<T(0)>(ring: seq<ListItem<T>>, k: nat)
    requires 1 <= k < |ring| - 1 && LinkedExcept(ring, k - 1, k + 1)
    requires ring[k - 1].next == ring[k + 1] && ring[k + 1].prev == ring[k - 1]
    ensures Linked(Without(ring, k))
  {
    var ring' := Without(ring, k);
    forall i | 0 <= i < |ring'| - 1 ensures ring'[i].next == ring'[i + 1] {
      if i < k - 1 { assert ring[i].next == ring[i + 1]; }
      if i >= k { assert ring[i + 1].next == ring[i + 2]; }
    }
    forall i | 1 <= i < |ring'| ensures ring'[i].prev == ring'[i - 1] {
      if i < k { assert ring[i].prev == ring[i - 1]; }
      if i > k { assert ring[i + 1].prev == ring[i]; }
    }
  }

  /** The two writes of `erase`; the result is the element after the one taken out. */
  method Unhook<T(0)>(ghost ring: seq<ListItem<T>>, ghost k: nat, ghost behind: ListItem<T>, ghost ahead: ListItem<T>,
                      pos: ListItem<T>)
    returns (nextItem: ListItem<T>)
    requires 1 <= k < |ring| - 1 && behind == ring[k - 1] && pos == ring[k] && ahead == ring[k + 1]
    requires Linked(ring) && Circular(ring)
    modifies behind`next, ahead`prev
    ensures Linked(Without(ring, k)) && nextItem == ahead
  {
    assert ring[k].next == ring[k + 1] && ring[k].prev == ring[k - 1];
    nextItem := pos.next;
    pos.next.prev := pos.prev;
    pos.prev.next := pos.next;
    Unhooked(ring, k);
  }

  /** The four writes of `insert`. */
  method Hook<T(0)>(ghost ring: seq<ListItem<T>>, ghost k: nat, ghost behind: ListItem<T>,
                    item: ListItem<T>, before: ListItem<T>)
    requires 1 <= k < |ring| && before == ring[k] && behind == ring[k - 1]
    requires item !in ring && Linked(ring) && Circular(ring)
    modifies behind`next, before`prev, item`prev, item`next
    ensures Linked(With(ring, k, item))
  {
    assert ring[k].prev == ring[k - 1];
    before.prev.next := item;
    item.prev := before.prev;
    item.next := before;
    before.prev := item;
    Hooked(ring, k, item);
  }

  class List<T(0)> {
    const sentinel: ListItem<T>
    ghost var items: seq<ListItem<T>>
    ghost var nodes: set<ListItem<T>>  // the items and the sentinel

    /** The iterator at position `k`; `end()` is the sentinel. */
    ghost function At(k: nat): ListItem<T>
      requires k <= |items|
      reads this
    {
      Pick(items, sentinel, k)
    }

    /** The items in order, between two mentions of the sentinel that closes the circle. */
    ghost function Ring(): seq<ListItem<T>>
      reads this
    {
      [sentinel] + items + [sentinel]
    }

    ghost predicate Valid()
      reads this, nodes
    {
      && sentinel in nodes && (forall x | x in items :: x in nodes)
      && (forall x | x in nodes :: x == sentinel || x in items)
      && sentinel !in items && Distinct(items) && Linked(Ring())
    }

    lemma RingIsCircular()
      requires Valid()
      ensures Circular(Ring())
    {
    }

    constructor ()
      ensures Valid() && items == [] && fresh(nodes)
    {
      sentinel := new ListItem<T>.Sentinel();
      items := [];
      nodes := {sentinel};
    }

    method Empty() returns (r: bool)
      requires Valid()
      ensures r <==> items == []
    {
      assert Ring()[0].next == Ring()[1];
      r := sentinel.next == sentinel;
    }

    method Begin() returns (it: ListItem<T>)
      requires Valid()
      ensures it == At(0) && it == if items == [] then sentinel else items[0]
    {
      assert Ring()[0].next == Ring()[1];
      it := sentinel.next;
    }

    /** `operator++` on the iterator at position `k`. */
    method Next(it: ListItem<T>, ghost k: nat) returns (it': ListItem<T>)
      requires Valid() && k < |items| && it == items[k]
      ensures it' == At(k + 1) && it' == if k + 1 == |items| then sentinel else items[k + 1]
    {
      assert Ring()[k + 1].next == Ring()[k + 2];
      it' := it.next;
    }

    method PushFront(item: ListItem<T>)
      requires Valid() && item !in nodes
      modifies this`items, this`nodes, nodes`prev, nodes`next, item`prev, item`next
      ensures Valid() && items == [item] + old(items) && nodes == old(nodes) + {item}
    {
      ghost var ring := Ring();
      RingIsCircular();
      assert ring[0].next == ring[1];
      sentinel.next.prev := item;
      item.prev := sentinel;
      item.next := sentinel.next;
      sentinel.next := item;
      items, nodes := With(items, 0, item), nodes + {item};
      Hooked(ring, 1, item);
      assert Ring() == With(ring, 1, item);
    }

    method PushBack(item: ListItem<T>)
      requires Valid() && item !in nodes
      modifies this`items, this`nodes, nodes`prev, nodes`next, item`prev, item`next
      ensures Valid() && items == old(items) + [item] && nodes == old(nodes) + {item}
    {
      ghost var n, ring := |items|, Ring();
      RingIsCircular();
      assert ring[n + 1].prev == ring[n];
      sentinel.prev.next := item;
      item.next := sentinel;
      item.prev := sentinel.prev;
      sentinel.prev := item;
      items, nodes := items + [item], nodes + {item};
      Hooked(ring, n + 1, item);
      assert Ring() == With(ring, n + 1, item);
    }

    method PopBack()
      requires Valid() && items != []
      modifies this`items, this`nodes, nodes`prev, nodes`next
      ensures Valid() && items == old(items)[..|old(items)| - 1]
      ensures nodes == old(nodes) - {old(items)[|old(items)| - 1]}
    {
      ghost var n, ring := |items|, Ring();
      RingIsCircular();
      assert ring[n + 1].prev == ring[n] && ring[n].prev == ring[n - 1];
      var itemToRemove := sentinel.prev;
      sentinel.prev := itemToRemove.prev;
      sentinel.prev.next := sentinel;
      items, nodes := items[..n - 1], nodes - {itemToRemove};
      Unhooked(ring, n);
      assert Ring() == Without(ring, n);
    }

    method PopFront()
      requires Valid() && items != []
      modifies this`items, this`nodes, nodes`prev, nodes`next
      ensures Valid() && items == old(items)[1..] && nodes == old(nodes) - {old(items)[0]}
    {
      ghost var ring := Ring();
      RingIsCircular();
      assert ring[0].next == ring[1] && ring[1].next == ring[2];
      var itemToRemove := sentinel.next;
      sentinel.next := itemToRemove.next;
      sentinel.next.prev := sentinel;
      items, nodes := items[1..], nodes - {itemToRemove};
      Unhooked(ring, 1);
      assert Ring() == Without(ring, 1);
    }

    /** `k` is the position of `pos`; the result is the iterator after it. */
    method Erase(pos: ListItem<T>, ghost k: nat) returns (nextItem: ListItem<T>)
      requires Valid() && k < |items| && items[k] == pos
      modifies this`items, this`nodes, nodes`prev, nodes`next
      ensures Valid() && items == Without(old(items), k) && nodes == old(nodes) - {pos}
      ensures items == old(items)[..k] + old(items)[k + 1..]
      ensures nextItem == At(k) && nextItem == if k + 1 == |old(items)| then sentinel else old(items)[k + 1]
    {
      ghost var ring := Ring();
      RingIsCircular();
      assert ring[k + 1] == pos && ring[k + 2] == At(k + 1);
      nextItem := Unhook(ring, k + 1, ring[k], ring[k + 2], pos);
      DistinctWithout(items, k);
      items, nodes := Without(items, k), nodes - {pos};
      Framed(old(items), k, pos, sentinel);
    }

    /** `k` is the position of `before`, `|items|` standing for `end()`. */
    method Insert(item: ListItem<T>, before: ListItem<T>, ghost k: nat) returns (it: ListItem<T>)
      requires Valid() && item !in nodes
      requires k <= |items| && before == At(k)
      modifies this`items, this`nodes, nodes`prev, nodes`next, item`prev, item`next
      ensures Valid() && items == With(old(items), k, item) && nodes == old(nodes) + {item}
      ensures items == old(items)[..k] + [item] + old(items)[k..]
      ensures it == before == At(k + 1)
    {
      ghost var ring := Ring();
      RingIsCircular();
      assert ring[k + 1] == before;
      Hook(ring, k + 1, ring[k], item, before);
      DistinctWith(items, k, item);
      items, nodes := With(items, k, item), nodes + {item};
      Framed(old(items), k, item, sentinel);
      it := before;
    }

    /** No node of this list is a node of the other. */
    ghost predicate Apart(other: List<T>)
      reads this, other
    {
      nodes !! other.nodes
    }

    /** `n` elements of `theirs` from position `i` on have moved to position `b` of `mine`. */
    ghost predicate Midway(other: List<T>, mine: seq<ListItem<T>>, b: nat, theirs: seq<ListItem<T>>, i: nat, n: nat)
      requires b <= |mine| && i + n <= |theirs|
      reads this, nodes, other, other.nodes
    {
      && Valid() && other.Valid() && other != this && Apart(other)
      && items == Moved(mine, b, theirs, i, n) && other.items == Remaining(theirs, i, n)
    }

    /** One turn of the loop of `splice`. */
    method MoveOne(pos: ListItem<T>, other: List<T>, it: ListItem<T>,
                   ghost mine: seq<ListItem<T>>, ghost b: nat,
                   ghost theirs: seq<ListItem<T>>, ghost i: nat, ghost n: nat)
      returns (pos': ListItem<T>, it': ListItem<T>)
      requires b <= |mine| && i + n < |theirs| && Midway(other, mine, b, theirs, i, n)
      requires pos == Pick(mine, sentinel, b) && it == theirs[i + n]
      modifies this`items, this`nodes, other`items, other`nodes, (nodes + other.nodes)`prev, (nodes + other.nodes)`next
      ensures Midway(other, mine, b, theirs, i, n + 1)
      ensures pos' == pos && it' == Pick(theirs, other.sentinel, i + n + 1)
      ensures nodes + other.nodes == old(nodes + other.nodes)
    {
      MovedStep(mine, b, theirs, i, n, sentinel);
      MovedStep(mine, b, theirs, i, n, other.sentinel);
      it' := other.Erase(it, i);
      pos' := Insert(it, pos, b + n);
    }

    /** The loop of `splice` between two lists. */
    method SpliceLoop(before: ListItem<T>, other: List<T>, first: ListItem<T>, last: ListItem<T>,
                      ghost mine: seq<ListItem<T>>, ghost b: nat,
                      ghost theirs: seq<ListItem<T>>, ghost i: nat, ghost j: nat)
      requires b <= |mine| && i <= j <= |theirs| && Midway(other, mine, b, theirs, i, 0)
      requires before == Pick(mine, sentinel, b) && first == Pick(theirs, other.sentinel, i)
      requires forall m | i <= m <= j :: Pick(theirs, other.sentinel, m) == last <==> m == j
      modifies this`items, this`nodes, other`items, other`nodes, (nodes + other.nodes)`prev, (nodes + other.nodes)`next
      ensures Midway(other, mine, b, theirs, i, j - i) && nodes + other.nodes == old(nodes + other.nodes)
    {
      ghost var m := i;
      var it, pos := first, before;
      while it != last
        invariant i <= m <= j && Midway(other, mine, b, theirs, i, m - i)
        invariant it == Pick(theirs, other.sentinel, m) && pos == before
        invariant nodes + other.nodes == old(nodes + other.nodes)
        decreases j - m
      {
        pos, it := MoveOne(pos, other, it, mine, b, theirs, i, m - i);
        m := m + 1;
      }
    }

    /** Moves the range from `first` (position `i`) up to `last` (position `j`) of `other` in front
        of `before` (position `b`) in this list. */
    method Splice(before: ListItem<T>, other: List<T>, first: ListItem<T>, last: ListItem<T>,
                  ghost b: nat, ghost i: nat, ghost j: nat)
      requires Valid() && other.Valid() && other != this && Apart(other)
      requires b <= |items| && before == At(b)
      requires i <= j <= |other.items| && first == other.At(i) && last == other.At(j)
      modifies this`items, this`nodes, other`items, other`nodes, (nodes + other.nodes)`prev, (nodes + other.nodes)`next
      ensures Valid() && other.Valid() && Apart(other)
      ensures items == Moved(old(items), b, old(other.items), i, j - i)
      ensures other.items == Remaining(old(other.items), i, j - i)
      ensures items == old(items)[..b] + old(other.items)[i..j] + old(items)[b..]
      ensures other.items == old(other.items)[..i] + old(other.items)[j..]
      ensures nodes + other.nodes == old(nodes + other.nodes)
    {
      ghost var mine, theirs := items, other.items;
      MovedNone(mine, b, theirs, i);
      SpliceLoop(before, other, first, last, mine, b, theirs, i, j);
      MovedRange(mine, b, theirs, i, j);
    }

    /** The whole of `other` moves in front of `before`. */
    method SpliceAll(before: ListItem<T>, other: List<T>, ghost b: nat)
      requires Valid() && other.Valid() && other != this && Apart(other)
      requires b <= |items| && before == At(b)
      modifies this`items, this`nodes, other`items, other`nodes, (nodes + other.nodes)`prev, (nodes + other.nodes)`next
      ensures Valid() && other.Valid() && Apart(other)
      ensures items == old(items)[..b] + old(other.items) + old(items)[b..] && other.items == []
      ensures nodes + other.nodes == old(nodes + other.nodes)
    {
      var first := other.Begin();
      Splice(before, other, first, other.sentinel, b, 0, |other.items|);
    }

    /** `n` elements of the range from position `i` of `s` on have moved to position `b`. */
    ghost predicate Rotating(s: seq<ListItem<T>>, b: nat, i: nat, n: nat)
      reads this, nodes
    {
      Valid() && CanRotate(s, b, i, n) && items == Rotated(s, b, i, n)
    }

    /** One turn of the loop of `splice` when both lists are this one. */
    method MoveWithin(pos: ListItem<T>, it: ListItem<T>,
                      ghost s: seq<ListItem<T>>, ghost b: nat, ghost i: nat, ghost j: nat, ghost n: nat)
      returns (pos': ListItem<T>, it': ListItem<T>)
      requires Rotating(s, b, i, n) && RotationEnds(b, i, j) && i + n < j <= |s|
      requires pos == Pick(s, sentinel, b) && it == s[i + n]
      modifies this`items, this`nodes, nodes`prev, nodes`next
      ensures Rotating(s, b, i, n + 1) && nodes == old(nodes)
      ensures pos' == pos && it' == Pick(s, sentinel, i + n + 1)
    {
      RotatedStep(s, b, i, j, n, sentinel);
      it' := Erase(it, RotateFrom(b, i, n));
      pos' := Insert(it, pos, RotateTo(b, i, n));
    }

    /** The loop of `splice` over a range of this list. */
    method RotateLoop(before: ListItem<T>, first: ListItem<T>, last: ListItem<T>,
                      ghost s: seq<ListItem<T>>, ghost b: nat, ghost i: nat, ghost j: nat)
      requires Rotating(s, b, i, 0) && RotationEnds(b, i, j) && i <= j <= |s|
      requires before == Pick(s, sentinel, b) && first == Pick(s, sentinel, i)
      requires forall m | i <= m <= j :: Pick(s, sentinel, m) == last <==> m == j
      modifies this`items, this`nodes, nodes`prev, nodes`next
      ensures Rotating(s, b, i, j - i) && nodes == old(nodes)
    {
      ghost var m := i;
      var it, pos := first, before;
      while it != last
        invariant i <= m <= j && Rotating(s, b, i, m - i) && it == Pick(s, sentinel, m)
        invariant pos == before && nodes == old(nodes)
        decreases j - m
      {
        pos, it := MoveWithin(pos, it, s, b, i, j, m - i);
        m := m + 1;
      }
    }

    /** `splice` of a range of this list itself: well defined in front of the range, behind the element
        after it, and for a range of one element in front of that one. */
    method SpliceWithin(before: ListItem<T>, first: ListItem<T>, last: ListItem<T>,
                        ghost b: nat, ghost i: nat, ghost j: nat)
      requires Valid() && b <= |items| && before == At(b)
      requires i <= j <= |items| && first == At(i) && last == At(j)
      requires RotationEnds(b, i, j)
      modifies this`items, this`nodes, nodes`prev, nodes`next
      ensures Rotating(old(items), b, i, j - i)
      ensures nodes == old(nodes)
      ensures b <= i ==> items == old(items)[..b] + old(items)[i..j] + old(items)[b..i] + old(items)[j..]
      ensures b > i ==> items == old(items)[..i] + old(items)[j..b] + old(items)[i..j] + old(items)[b..]
    {
      ghost var s := items;
      StartRotating(b, i, j);
      RotateLoop(before, first, last, s, b, i, j);
      RotatedRange(s, b, i, j);
    }

    lemma StartRotating(b: nat, i: nat, j: nat)
      requires Valid() && b <= |items| && i <= j <= |items| && RotationEnds(b, i, j)
      ensures Rotating(items, b, i, 0) && CanRotate(items, b, i, j - i)
      ensures forall m | i <= m <= j :: Pick(items, sentinel, m) == Pick(items, sentinel, j) <==> m == j
    {
      RotatedNone(items, b, i);
    }

    /** In front of the third element of the range or any later one, up to the one after the range, it
        never ends: a turn of the loop leaves the iterator at the same position, short of `last`. */
    method SpinWithin(before: ListItem<T>, last: ListItem<T>, it: ListItem<T>, ghost b: nat, ghost i: nat, ghost j: nat)
      returns (it': ListItem<T>)
      requires Valid() && i + 2 <= b <= j <= |items| && it == At(i) && before == At(b) && last == At(j)
      modifies this`items, this`nodes, nodes`prev, nodes`next
      ensures Valid() && |items| == |old(items)| && it' == At(i) && before == At(b) && last == At(j)
      ensures it' != last && it' != before
    {
      ShiftedEnds(items, i, b, j, sentinel);
      it' := Erase(it, i);
      var _ := Insert(it, before, b - 1);
      PickDiffers(items, sentinel, i, b);
      PickDiffers(items, sentinel, i, j);
    }

    /** The links of a well-formed list. */
    lemma AsRing(l: Links<ListItem<T>>)
      requires Valid() && Mirrors(l, nodes)
      ensures IsRing(l, sentinel, items)
    {
      var ring := Ring();
      assert ring == SpliceTurns.Ring(items, sentinel);
      forall k | 0 <= k < |ring| - 1 ensures l.next(ring[k]) == ring[k + 1] { assert ring[k].next == ring[k + 1]; }
      forall k | 1 <= k < |ring| ensures l.prev(ring[k]) == ring[k - 1] { assert ring[k].prev == ring[k - 1]; }
      JoinedIf(l, ring);
    }

    /** `n` turns of the loop of `splice` over a range of this list, wherever it is to go: the links
        follow `Turns`, also once they no longer make a list. */
    method TurnWithin(before: ListItem<T>, first: ListItem<T>, n: nat, ghost b: nat, ghost i: nat, ghost j: nat)
      returns (it: ListItem<T>, ghost t: Turning<ListItem<T>>)
      requires Valid() && i <= j <= |items| && b <= |items| && first == At(i) && before == At(b)
      modifies nodes`prev, nodes`next
      ensures Start(t, sentinel, items, b, i, j)
      ensures Mirrors(Turns(t, before, n).links, nodes) && it == Turns(t, before, n).it
    {
      ghost var l := Snapshot();
      AsRing(l);
      t := Turning(l, first);
      it := TurnTimes(nodes, t, before, first, n);
    }

    ghost function Snapshot(): (l: Links<ListItem<T>>)
      requires Valid()
      reads this, nodes
      ensures Mirrors(l, nodes)
    {
      AllStayInside();
      var prev := map x | x in nodes :: PrevOf(x);
      var next := map x | x in nodes :: NextOf(x);
      Links(x => if x in prev then prev[x] else x, x => if x in next then next[x] else x)
    }

    lemma AllStayInside()
      requires Valid()
      ensures forall x {:trigger x.prev} {:trigger x.next} | x in nodes ::
                x.prev != null && x.next != null && x.prev in nodes && x.next in nodes
    {
      forall x {:trigger x.prev} {:trigger x.next} | x in nodes
        ensures x.prev != null && x.next != null && x.prev in nodes && x.next in nodes
      {
        StaysInside(x);
      }
    }

    lemma StaysInside(x: ListItem<T>)
      requires Valid() && x in nodes
      ensures x.prev != null && x.next != null && x.prev in nodes && x.next in nodes
    {
      var ring := Ring();
      assert forall k | 0 <= k < |ring| :: ring[k] in nodes;
      if x == sentinel {
        assert ring[0].next == ring[1] && ring[|ring| - 1].prev == ring[|ring| - 2];
      } else {
        var k :| 0 <= k < |items| && items[k] == x;
        assert ring[k + 1] == x && ring[k + 1].next == ring[k + 2] && ring[k + 1].prev == ring[k];
      }
    }
  }

  ghost function PrevOf<T(0)>(x: ListItem<T>): ListItem<T>
    requires x.prev != null
    reads x
  {
    x.prev
  }

  ghost function NextOf<T(0)>(x: ListItem<T>): ListItem<T>
    requires x.next != null
    reads x
  {
    x.next
  }

  /** The pointers of `nodes` are those of `l`, and lead to `nodes`. */
  ghost predicate Mirrors<T(0)>(l: Links<ListItem<T>>, nodes: set<ListItem<T>>)
    reads nodes
  {
    && (forall x {:trigger x.prev} {:trigger l.prev(x)} | x in nodes :: x.prev == l.prev(x) && l.prev(x) in nodes)
    && (forall x {:trigger x.next} {:trigger l.next(x)} | x in nodes :: x.next == l.next(x) && l.next(x) in nodes)
  }

  method SetPrev<T(0)>(ghost nodes: set<ListItem<T>>, ghost l: Links<ListItem<T>>, x: ListItem<T>, y: ListItem<T>)
    requires Mirrors(l, nodes) && x in nodes && y in nodes
    modifies x`prev
    ensures Mirrors(WithPrev(l, x, y), nodes)
  {
    x.prev := y;
  }

  method SetNext<T(0)>(ghost nodes: set<ListItem<T>>, ghost l: Links<ListItem<T>>, x: ListItem<T>, y: ListItem<T>)
    requires Mirrors(l, nodes) && x in nodes && y in nodes
    modifies x`next
    ensures Mirrors(WithNext(l, x, y), nodes)
  {
    x.next := y;
  }

  /** The two writes of `erase`. */
  method EraseLinks<T(0)>(ghost nodes: set<ListItem<T>>, ghost l: Links<ListItem<T>>, x: ListItem<T>)
    requires Mirrors(l, nodes) && x in nodes
    modifies nodes`prev, nodes`next
    ensures Mirrors(Erased(l, x), nodes)
  {
    SetPrev(nodes, l, x.next, x.prev);
    SetNext(nodes, WithPrev(l, l.next(x), l.prev(x)), x.prev, x.next);
  }

  /** The four writes of `insert`. */
  method InsertLinks<T(0)>(ghost nodes: set<ListItem<T>>, ghost l: Links<ListItem<T>>,
                           x: ListItem<T>, before: ListItem<T>)
    requires Mirrors(l, nodes) && x in nodes && before in nodes
    modifies nodes`prev, nodes`next
    ensures Mirrors(Inserted(l, x, before), nodes)
  {
    SetNext(nodes, l, before.prev, x);
    ghost var a := WithNext(l, l.prev(before), x);
    SetPrev(nodes, a, x, before.prev);
    ghost var b := WithPrev(a, x, a.prev(before));
    SetNext(nodes, b, x, before);
    SetPrev(nodes, WithNext(b, x, before), before, x);
  }

  /** One turn of the loop of `splice`. */
  method TurnOnce<T(0)>(ghost nodes: set<ListItem<T>>, ghost u: Turning<ListItem<T>>,
                        before: ListItem<T>, it: ListItem<T>)
    returns (it': ListItem<T>)
    requires Mirrors(u.links, nodes) && it == u.it && it in nodes && before in nodes
    modifies nodes`prev, nodes`next
    ensures Mirrors(Turn(u, before).links, nodes) && it' == Turn(u, before).it && it' in nodes
  {
    it' := it.next;
    EraseLinks(nodes, u.links, it);
    InsertLinks(nodes, Erased(u.links, it), it, before);
  }

  method TurnTimes<T(0)>(ghost nodes: set<ListItem<T>>, ghost t: Turning<ListItem<T>>,
                         before: ListItem<T>, first: ListItem<T>, n: nat)
    returns (it: ListItem<T>)
    requires Mirrors(t.links, nodes) && first == t.it && first in nodes && before in nodes
    modifies nodes`prev, nodes`next
    ensures Mirrors(Turns(t, before, n).links, nodes) && it == Turns(t, before, n).it && it in nodes
  {
    it := first;
    for k := 0 to n
      invariant Mirrors(Turns(t, before, k).links, nodes) && it == Turns(t, before, k).it && it in nodes
    {
      it := TurnOnce(nodes, Turns(t, before, k), before, it);
    }
  }
}
