/** The pool that recycles list items. */
module Pool {
  import opened Common
  import opened Sequences
  import opened IntrusiveList

  class Pool<T(0)> {
    const list: List<T>
    const blank: T                               // the value of an item just constructed or reset
    ghost var created: seq<ListItem<T>>          // every item ever allocated, in order
    ghost var destroyed: seq<ListItem<T>>        // every item deallocated, in order

    ghost predicate Valid()
      reads this, list, list.nodes
    {
      && list.Valid() && list.sentinel !in created
      && Distinct(created) && Distinct(destroyed)
      && (forall x | x in destroyed :: x in created)
      && (forall x | x in list.items :: x in created && x !in destroyed)
    }

    /** `item` came from this pool, was not destroyed and is not in its free list. */
    ghost predicate Owes(item: ListItem<T>)
      reads this, list
    {
      item in created && item !in destroyed && item !in list.nodes
    }

    constructor (blank: T)
      ensures Valid() && list.items == [] && created == [] && destroyed == []
      ensures this.blank == blank && fresh(list) && fresh(list.nodes)
    {
      list := new List<T>();
      this.blank := blank;
      created, destroyed := [], [];
    }

    /** `fails` says that constructing a new item throws: then there is no item, and the memory
        allocated for it is freed again. */
    method Get(fails: bool) returns (item: ListItem?<T>)
      requires Valid()
      modifies this`created, list`items, list`nodes, list.nodes
      ensures Valid() && destroyed == old(destroyed)
      ensures item == null <==> old(list.items) == [] && fails
      ensures item == null ==> list.items == [] && created == old(created) && list.nodes == old(list.nodes)
      ensures item != null ==> Owes(item) && item.value == blank
      ensures old(list.items) != [] ==>
                item == old(list.items)[0] && list.items == old(list.items)[1..] && created == old(created)
                && list.nodes == old(list.nodes) - {item}
      ensures old(list.items) == [] && item != null ==>
                fresh(item) && list.items == [] && created == old(created) + [item] && list.nodes == old(list.nodes)
      ensures forall x | x in list.items :: x.value == old(x.value)
    {
      var empty := list.Empty();
      if !empty {
        item := list.Begin();
        var _ := list.Erase(item, 0);
        item.value := blank;
        return;
      }
      if fails { return null; }
      item := new ListItem<T>(blank);
      created := created + [item];
    }

    method Put(item: ListItem<T>)
      requires Valid() && Owes(item)
      modifies list`items, list`nodes, list.nodes`prev, list.nodes`next, item`prev, item`next
      ensures Valid() && list.items == old(list.items) + [item] && list.nodes == old(list.nodes) + {item}
    {
      list.PushBack(item);
    }

    /** Constructing the item with number `failing` throws, if there are so many to fill in. */
    method Fill(n: nat, failing: Option<nat>) returns (threw: bool)
      requires Valid()
      modifies this`created, list`items, list`nodes, list.nodes`prev, list.nodes`next
      ensures Valid() && destroyed == old(destroyed)
      ensures threw <==> failing.Some? && failing.value < n
      ensures |created| == |old(created)| + (if threw then failing.value else n) && old(created) <= created
      ensures list.items == old(list.items) + created[|old(created)|..]
      ensures fresh(list.nodes - old(list.nodes))
      ensures forall x | x in created[|old(created)|..] :: fresh(x) && x.value == blank
    {
      var left := n;
      while left > 0
        invariant 0 <= left <= n && Valid() && (failing.Some? ==> n - left <= failing.value)
        invariant |created| == |old(created)| + n - left && old(created) <= created
        invariant list.items == old(list.items) + created[|old(created)|..]
        invariant fresh(list.nodes - old(list.nodes))
        invariant forall x | x in created[|old(created)|..] :: fresh(x) && x.value == blank
      {
        if failing == Some(n - left) { return true; }
        left := left - 1;
        var newItem := new ListItem<T>(blank);
        created := created + [newItem];
        Put(newItem);
      }
      threw := false;
    }

    /** One turn of the loop of `clear`. */
    method DestroyFirst(it: ListItem<T>) returns (it': ListItem<T>)
      requires Valid() && list.items != [] && it == list.items[0]
      modifies this`destroyed, list`items, list`nodes, list.nodes`prev, list.nodes`next
      ensures Valid() && list.items == old(list.items)[1..] && destroyed == old(destroyed) + [it]
      ensures list.nodes == old(list.nodes) - {it} && it' == list.At(0)
    {
      it' := list.Erase(it, 0);
      destroyed := destroyed + [it];
    }

    /** Every item in the free list is destroyed, in list order; nothing is destroyed twice. */
    method Clear()
      requires Valid()
      modifies this`destroyed, list`items, list`nodes, list.nodes`prev, list.nodes`next
      ensures Valid() && list.items == [] && destroyed == old(destroyed) + old(list.items)
      ensures list.nodes <= old(list.nodes)
    {
      ghost var n, all := 0, list.items;
      var it := list.Begin();
      while it != list.sentinel
        invariant 0 <= n <= |all| && Valid()
        invariant list.items == all[n..] && destroyed == old(destroyed) + all[..n]
        invariant list.nodes <= old(list.nodes) && it == list.At(0)
        decreases |all| - n
      {
        assert all[n..][1..] == all[n + 1..] && all[..n] + [all[n]] == all[..n + 1];
        it := DestroyFirst(it);
        n := n + 1;
      }
    }

    /** All of `other` came from this pool. */
    ghost predicate Lent(other: List<T>)
      reads this, list, list.nodes, other, other.nodes
    {
      && Valid() && other.Valid() && other != list && other.nodes !! list.nodes
      && forall x | x in other.items :: x in created && x !in destroyed
    }

    /** The first `n` of the items `all` have gone back to the pool. */
    ghost predicate GivenBack(other: List<T>, base: seq<ListItem<T>>, all: seq<ListItem<T>>, n: nat)
      requires n <= |all|
      reads this, list, list.nodes, other, other.nodes
    {
      Lent(other) && other.items == all[n..] && list.items == base + all[..n]
    }

    /** One turn of the loop of the guard's destructor. */
    method ReturnFirst(other: List<T>, it: ListItem<T>,
                       ghost base: seq<ListItem<T>>, ghost all: seq<ListItem<T>>, ghost n: nat)
      returns (it': ListItem<T>)
      requires n < |all| && GivenBack(other, base, all, n) && it == all[n]
      modifies list`items, list`nodes, other`items, other`nodes
      modifies (list.nodes + other.nodes)`prev, (list.nodes + other.nodes)`next
      ensures GivenBack(other, base, all, n + 1) && it' == Pick(all, other.sentinel, n + 1)
      ensures list.nodes + other.nodes == old(list.nodes + other.nodes)
    {
      it' := other.Erase(it, 0);
      Put(it);
    }

    /** The destructor of `ReturnToPoolGuard`: the whole of `other` goes back, in order. */
    method ReturnAll(other: List<T>)
      requires Lent(other)
      modifies list`items, list`nodes, other`items, other`nodes
      modifies (list.nodes + other.nodes)`prev, (list.nodes + other.nodes)`next
      ensures Lent(other) && other.items == [] && list.items == old(list.items) + old(other.items)
      ensures list.nodes + other.nodes == old(list.nodes + other.nodes)
    {
      ghost var n, base, all := 0, list.items, other.items;
      var it := other.Begin();
      while it != other.sentinel
        invariant 0 <= n <= |all| && GivenBack(other, base, all, n) && it == Pick(all, other.sentinel, n)
        invariant list.nodes + other.nodes == old(list.nodes + other.nodes)
        decreases |all| - n
      {
        it := ReturnFirst(other, it, base, all, n);
        n := n + 1;
      }
    }
  }
}
