/** `EncoderService` on the heap: its pool, its queue, the codecs it drains and its eventfd. Each
    method is proved against the atomic blocks of the step relation. */
module EncoderService {
  import opened Common
  import opened Sequences
  import opened IntrusiveList
  import opened Pool
  import opened EncoderPipeline
  import opened EncoderDispatch

  const INITIAL_POOL_SIZE: nat := 16

  datatype StreamPoll = StreamPoll(codec: Option<nat>, stream: Option<nat>, hasFrame: bool)

  type Item = ListItem<StreamPoll>

  const BLANK := StreamPoll(None, None, true)

  ghost predicate Filled(v: StreamPoll, codecs: nat) {
    v.codec.Some? && v.codec.value < codecs && v.stream.Some?
  }

  /** The allocation number of an item. */
  ghost function IdOf<X>(created: seq<X>, x: X): (k: nat)
    requires x in created
    ensures k < |created| && created[k] == x
  {
    var k :| 0 <= k < |created| && created[k] == x; k
  }

  ghost function IdsOf<X>(created: seq<X>, xs: seq<X>): (ids: seq<nat>)
    requires forall x | x in xs :: x in created
    ensures |ids| == |xs|
  {
    seq(|xs|, i requires 0 <= i < |xs| => IdOf(created, xs[i]))
  }

  lemma IdStable<X>(created: seq<X>, y: X, x: X)
    requires Distinct(created) && x in created && y !in created
    ensures IdOf(created + [y], x) == IdOf(created, x)
    ensures IdOf(created + [y], y) == |created|
  {
    var k := IdOf(created + [y], x);
    assert k < |created|;
    assert (created + [y])[|created|] == y;
  }

  /** Items created later leave the numbers of the others, and are numbered on from there. */
  lemma IdsGrow<X>(created: seq<X>, created': seq<X>, xs: seq<X>)
    requires Distinct(created') && created <= created' && forall x | x in xs :: x in created
    ensures IdsOf(created', xs) == IdsOf(created, xs)
    ensures IdsOf(created', created'[|created|..]) == seq(|created'| - |created|, i => |created| + i)
  {
    forall x | x in created ensures IdOf(created', x) == IdOf(created, x) {
      var k := IdOf(created, x);
      assert created'[k] == x;
    }
    forall i | 0 <= i < |created'| - |created| ensures IdOf(created', created'[|created|..][i]) == |created| + i {
      assert created'[|created| + i] == created'[|created|..][i];
    }
  }

  lemma IdsAppend<X>(created: seq<X>, xs: seq<X>, ys: seq<X>)
    requires forall x | x in xs + ys :: x in created
    ensures (forall x | x in xs :: x in created) && (forall y | y in ys :: y in created)
    ensures IdsOf(created, xs + ys) == IdsOf(created, xs) + IdsOf(created, ys)
  {
    assert forall x | x in xs :: x in xs + ys;
    assert forall y | y in ys :: y in xs + ys;
  }

  ghost function EntryOf(created: seq<Item>, x: Item, v: StreamPoll): Entry
    requires x in created && v.codec.Some? && v.stream.Some?
  {
    Entry(IdOf(created, x), v.codec.value, v.stream.value, !v.hasFrame)
  }

  /** Taking an item from the pool, or a new one, and its number. */
  ghost function Got(k: Core): (Core, nat) {
    if k.pool != [] then (TakeFromPool(k), k.pool[0]) else (CreateItem(k), k.created)
  }

  /** Writing to the eventfd adds to it, if there is one. */
  ghost function Bumped(k: Core, open: bool): Core {
    if open then k.(counter := k.counter + 1) else k
  }

  /** `n` new items at the end of the pool, and an eventfd at zero. */
  ghost function Stocked(k: Core, n: nat): Core {
    k.(counter := 0, created := k.created + n, pool := k.pool + seq(n, i => k.created + i))
  }

  /** Reading the eventfd zeroes it, unless it has been closed. */
  ghost function Woken(k: Core, open: bool): Core {
    if open then k.(counter := 0) else k
  }

  class EncoderService {
    const pool: Pool<StreamPoll>
    const pending: List<StreamPoll>
    var codecs: seq<seq<Packet>>   // what each codec can deliver
    var muxed: seq<Muxed>          // what the format context was given
    var open: bool                 // whether notify_fd_ names the eventfd
    var counter: nat               // the eventfd
    var registered: bool           // whether the event loop dispatches on the eventfd

    ghost predicate Valid()
      reads this, pool, pool.list, pool.list.nodes, pending, pending.nodes
    {
      && pool.Lent(pending) && pool.blank == BLANK
      && pool.list.sentinel !in pool.created && pending.sentinel !in pool.created
      && forall x | x in pending.items :: Filled(x.value, |codecs|)
    }

    /** The shared data of the step relation that this object stands for. */
    ghost function View(): Core
      requires Valid()
      reads this, pool, pool.list, pool.list.nodes, pending, pending.nodes
    {
      Core(IdsOf(pool.created, pool.list.items), Entries(pending.items), codecs, counter, muxed,
           |pool.created|, IdsOf(pool.created, pool.destroyed))
    }

    ghost function Entries(items: seq<Item>): (es: seq<Entry>)
      requires forall x | x in items :: x in pool.created && Filled(x.value, |codecs|)
      reads this, pool, items
      ensures |es| == |items|
    {
      seq(|items|, i requires 0 <= i < |items| reads items, pool, this
          requires items[i] in pool.created && Filled(items[i].value, |codecs|)
          => EntryOf(pool.created, items[i], items[i].value))
    }

    constructor (codecCount: nat)
      ensures Valid() && View() == Core([], [], seq(codecCount, _ => []), 0, [], 0, []) && !open && !registered
      ensures fresh(pool) && fresh(pool.list) && fresh(pool.list.nodes) && fresh(pending) && fresh(pending.nodes)
    {
      pool := new Pool<StreamPoll>(BLANK);
      pending := new List<StreamPoll>();
      codecs, muxed, open, counter, registered := seq(codecCount, _ => []), [], false, 0, false;
    }

    /** `Encoder::prepare_frame`; `fails` says that constructing a new item throws. */
    method PrepareFrame(codec: nat, stream: nat, fails: bool) returns (item: ListItem?<StreamPoll>)
      requires Valid()
      modifies pool`created, pool.list`items, pool.list`nodes, pool.list.nodes
      ensures Valid()
      ensures item == null <==> old(View()).pool == [] && fails
      ensures item == null ==> View() == old(View())
      ensures item != null ==>
                && pool.Owes(item) && item !in pending.nodes && (fresh(item) || item in old(pool.list.nodes))
                && item.value == StreamPoll(Some(codec), Some(stream), true)
                && View() == Got(old(View())).0 && IdOf(pool.created, item) == Got(old(View())).1
    {
      item := pool.Get(fails);
      if item == null { return; }
      item.value := StreamPoll(Some(codec), Some(stream), item.value.hasFrame);
      if old(pool.list.items) == [] {
        forall x | x in old(pool.created) ensures IdOf(pool.created, x) == IdOf(old(pool.created), x) {
          IdStable(old(pool.created), item, x);
        }
        assert pool.created[|old(pool.created)|] == item;
      }
    }

    /** An item a client holds: lent by the pool, not queued, and naming a codec. */
    ghost predicate Handle(item: Item)
      reads this, pool, pool.list, pending, item
    {
      pool.Owes(item) && item !in pending.nodes && Filled(item.value, |codecs|)
    }

    /** The critical section of `write_frame`; the codec answers with `packets`, or refuses. */
    method SendAndPush(item: Item, packets: seq<Packet>)
      requires Valid() && Handle(item)
      modifies this`codecs
      modifies pending`items, pending`nodes, pending.nodes`prev, pending.nodes`next, item`prev, item`next
      ensures Valid()
      ensures View() == SendAndQueue(old(View()), old(EntryOf(pool.created, item, item.value)), packets)
      ensures pending.items == old(pending.items) + [item]
      ensures var k := old(item.value.codec.value); codecs == old(codecs)[k := old(codecs)[k] + packets]
    {
      var codec := item.value.codec.value;
      codecs := codecs[codec := codecs[codec] + packets];
      pending.PushBack(item);
      assert pending.items[..|old(pending.items)|] == old(pending.items);
    }

    method WriteFrame(item: Item, packets: seq<Packet>)
      requires Valid() && Handle(item)
      modifies this`codecs, this`counter
      modifies pending`items, pending`nodes, pending.nodes`prev, pending.nodes`next, item`prev, item`next
      ensures Valid()
      ensures View() == Bumped(SendAndQueue(old(View()), old(EntryOf(pool.created, item, item.value)), packets), open)
      ensures counter == old(counter) + (if open then 1 else 0) && pending.items == old(pending.items) + [item]
      ensures var k := old(item.value.codec.value); codecs == old(codecs)[k := old(codecs)[k] + packets]
    {
      SendAndPush(item, packets);
      if open { counter := counter + 1; }
    }

    /** `Encoder::flush`: a prepared item whose frame is null. */
    method Flush(codec: nat, stream: nat, packets: seq<Packet>, fails: bool) returns (threw: bool)
      requires Valid() && codec < |codecs|
      modifies this`codecs, this`counter, pool`created, pool.list`items, pool.list`nodes, pool.list.nodes
      modifies pending`items, pending`nodes, pending.nodes`prev, pending.nodes`next
      ensures Valid() && (threw <==> old(View()).pool == [] && fails)
      ensures threw ==> View() == old(View())
      ensures var (got, id) := Got(old(View()));
              !threw ==> View() == Bumped(SendAndQueue(got, Entry(id, codec, stream, true), packets), open)
      ensures counter == old(counter) + if open && !threw then 1 else 0
      ensures !threw ==> codecs == old(codecs)[codec := old(codecs)[codec] + packets]
    {
      var item := PrepareFrame(codec, stream, fails);
      if item == null { return true; }
      item.value := item.value.(hasFrame := false);
      WriteFrame(item, packets);
      threw := false;
    }

    /** `while (response >= 0)` in `dispatch`: receive and mux until the codec answers EAGAIN. Either
        call may fail, which ends the loop by an exception. */
    method DrainOne(codec: nat, stream: nat) returns (threw: bool)
      requires codec < |codecs|
      modifies this`codecs, this`muxed
      ensures |codecs| == |old(codecs)| && forall k | 0 <= k < |codecs| && k != codec :: codecs[k] == old(codecs)[k]
      ensures !threw ==> codecs == old(codecs)[codec := []] && muxed == old(muxed) + Stamped(stream, old(codecs)[codec])
      ensures threw ==> CutShort(stream, old(codecs)[codec], codecs[codec], old(muxed), muxed)
    {
      ghost var queue, m := codecs[codec], 0;
      while true
        invariant |codecs| == |old(codecs)| && forall k | 0 <= k < |codecs| && k != codec :: codecs[k] == old(codecs)[k]
        invariant 0 <= m <= |queue| && codecs[codec] == queue[m..] && muxed == old(muxed) + Stamped(stream, queue[..m])
        decreases |queue| - m
      {
        assert CutAt(stream, queue, m, codecs[codec], old(muxed), muxed);
        if * { return true; }
        if codecs[codec] == [] { return false; }
        var packet := codecs[codec][0];
        codecs := codecs[codec := codecs[codec][1..]];
        assert CutAt(stream, queue, m, codecs[codec], old(muxed), muxed);
        if * { return true; }
        muxed := muxed + [Muxed(stream, packet)];
        m := m + 1;
      }
    }

    /** `tmp` holds items of the pool that are not queued. */
    ghost predicate Borrowed(tmp: List<StreamPoll>)
      reads this, pool, pool.list, pool.list.nodes, pending, pending.nodes, tmp, tmp.nodes
    {
      && pool.Lent(tmp) && tmp != pending && tmp.nodes !! pending.nodes
      && forall x | x in tmp.items :: Filled(x.value, |codecs|)
    }

    /** The critical section of `dispatch`: the whole queue moves to a list of its own. */
    method TakeQueue() returns (tmp: List<StreamPoll>)
      requires Valid()
      modifies pending`items, pending`nodes, pending.nodes`prev, pending.nodes`next
      ensures Valid() && Borrowed(tmp) && fresh(tmp) && fresh(tmp.sentinel)
      ensures pending.nodes <= old(pending.nodes) && tmp.nodes <= old(pending.nodes) + {tmp.sentinel}
      ensures Entries(tmp.items) == old(View()).pending
      ensures View() == TakePending(old(View()))
    {
      tmp := new List<StreamPoll>();
      var before := tmp.Begin();
      tmp.SpliceAll(before, pending, 0);
      assert tmp.items == old(pending.items);
    }

    /** The item at hand is the one the entry `e` stands for. */
    ghost predicate Matches(x: Item, e: Entry)
      reads this, x
    {
      Filled(x.value, |codecs|) && e.codec == x.value.codec.value && e.stream == x.value.stream.value
    }

    /** One turn of the loop of `dispatch` over its local list, at entry `n` of `es`. */
    method DrainItem(x: Item, ghost es: seq<Entry>, ghost n: nat, ghost k: Core) returns (threw: bool)
      requires n < |es| && Matches(x, es[n]) && InRange(k, es) && InRange(k, es[..n])
      requires k.(out := codecs, muxed := muxed) == DrainAll(k, es[..n])
      modifies this`codecs, this`muxed
      ensures |codecs| == |old(codecs)|
      ensures threw ==> Broken(k, es, n, k.(out := codecs, muxed := muxed))
      ensures !threw ==> InRange(k, es[..n + 1]) && k.(out := codecs, muxed := muxed) == DrainAll(k, es[..n + 1])
    {
      assert es[..n] + [es[n]] == es[..n + 1];
      DrainOneMore(k, es[..n], es[n]);
      threw := DrainOne(x.value.codec.value, x.value.stream.value);
    }

    /** The loop of `dispatch` over its local list, whose items are the entries `es`. */
    method DrainList(tmp: List<StreamPoll>, ghost es: seq<Entry>, ghost k: Core) returns (threw: bool)
      requires tmp.Valid() && |es| == |tmp.items| && k.out == codecs && k.muxed == muxed
      requires forall i | 0 <= i < |es| :: Matches(tmp.items[i], es[i])
      modifies this`codecs, this`muxed
      ensures |codecs| == |old(codecs)| && DrainResult(k, es, k.(out := codecs, muxed := muxed), threw)
    {
      ghost var n := 0;
      var it := tmp.Begin();
      threw := false;
      while it != tmp.sentinel
        invariant 0 <= n <= |es| && |codecs| == |old(codecs)| && it == tmp.At(n) && InRange(k, es[..n])
        invariant !threw && k.(out := codecs, muxed := muxed) == DrainAll(k, es[..n])
        decreases |es| - n
      {
        threw := DrainItem(it, es, n, k);
        if threw { return; }
        it := tmp.Next(it, n);
        n := n + 1;
      }
      assert es[..n] == es;
    }

    /** Nothing but the codecs and the muxer changes while the local list is drained. */
    method DrainBorrowed(tmp: List<StreamPoll>) returns (threw: bool)
      requires Valid() && Borrowed(tmp)
      modifies this`codecs, this`muxed
      ensures Valid() && Borrowed(tmp)
      ensures Entries(tmp.items) == old(Entries(tmp.items))
      ensures DrainResult(old(View()), Entries(tmp.items), View(), threw)
    {
      ghost var k, es := View(), Entries(tmp.items);
      threw := DrainList(tmp, es, k);
      assert Entries(tmp.items) == es && View() == k.(out := codecs, muxed := muxed);
    }

    /** The destructor of the guard in `dispatch`. */
    method GiveBack(tmp: List<StreamPoll>)
      requires Valid() && Borrowed(tmp)
      modifies pool.list`items, pool.list`nodes, tmp`items, tmp`nodes
      modifies (pool.list.nodes + tmp.nodes)`prev, (pool.list.nodes + tmp.nodes)`next
      ensures Valid()
      ensures View() == old(View()).(pool := old(View()).pool + ItemsOf(old(Entries(tmp.items))))
      ensures pool.list.nodes <= old(pool.list.nodes + tmp.nodes)
    {
      assert IdsOf(pool.created, tmp.items) == ItemsOf(Entries(tmp.items));
      pool.ReturnAll(tmp);
    }

    /** `dispatch` after its critical section, in which it took the queue of `k`. */
    method DrainAndGiveBack(tmp: List<StreamPoll>, ghost k: Core) returns (threw: bool)
      requires Valid() && Borrowed(tmp) && View() == TakePending(k) && Entries(tmp.items) == k.pending
      modifies this`codecs, this`muxed
      modifies pool.list`items, pool.list`nodes, tmp`items, tmp`nodes
      modifies (pool.list.nodes + tmp.nodes)`prev, (pool.list.nodes + tmp.nodes)`next
      ensures Valid() && DispatchResult(k, View(), threw)
      ensures pool.list.nodes <= old(pool.list.nodes + tmp.nodes)
    {
      threw := DrainBorrowed(tmp);
      DispatchComposed(k, View(), threw);
      GiveBack(tmp);
    }

    method ReadEvent()
      requires Valid()
      modifies this`counter
      ensures Valid() && View() == Woken(old(View()), open)
      ensures counter == if open then 0 else old(counter)
    {
      if open { counter := 0; }
    }

    /** `dispatch` from the splice on. Whether or not it throws, the queue is emptied into the pool. */
    method DispatchQueue() returns (threw: bool)
      requires Valid()
      modifies this`codecs, this`muxed
      modifies pool.list`items, pool.list`nodes, pool.list.nodes`prev, pool.list.nodes`next
      modifies pending`items, pending`nodes, pending.nodes`prev, pending.nodes`next
      ensures Valid() && DispatchResult(old(View()), View(), threw)
      ensures fresh(pool.list.nodes - old(pool.list.nodes + pending.nodes))
    {
      var tmp := TakeQueue();
      threw := DrainAndGiveBack(tmp, old(View()));
    }

    method Dispatch() returns (threw: bool)
      requires Valid()
      modifies this`codecs, this`muxed, this`counter
      modifies pool.list`items, pool.list`nodes, pool.list.nodes`prev, pool.list.nodes`next
      modifies pending`items, pending`nodes, pending.nodes`prev, pending.nodes`next
      ensures Valid() && DispatchResult(Woken(old(View()), open), View(), threw)
      ensures View().pending == [] && View().pool == old(View()).pool + ItemsOf(old(View()).pending)
      ensures old(muxed) <= muxed && counter == if open then 0 else old(counter)
      ensures fresh(pool.list.nodes - old(pool.list.nodes + pending.nodes))
    {
      ReadEvent();
      ghost var k := View();
      threw := DispatchQueue();
      DispatchKeeps(k, View(), threw);
    }

    /** `on_init`; `noEvent` says that the eventfd cannot be created, `failing` which item of the
        pool cannot be constructed. An eventfd that was created stays open when that throws. */
    method OnInit(noEvent: bool, failing: Option<nat>) returns (threw: bool)
      requires Valid()
      modifies this`open, this`counter, this`registered
      modifies pool`created, pool.list`items, pool.list`nodes, pool.list.nodes`prev, pool.list.nodes`next
      ensures Valid() && open == !noEvent
      ensures threw <==> noEvent || (failing.Some? && failing.value < INITIAL_POOL_SIZE)
      ensures registered == if threw then old(registered) else true
      ensures !threw ==> |pool.created| == |old(pool.created)| + 16 && counter == 0
      ensures noEvent ==> View() == old(View())
      ensures var k, n := old(View()), if threw && !noEvent then failing.value else INITIAL_POOL_SIZE;
              !noEvent ==> View() == Stocked(k, n)
    {
      open := !noEvent;
      if noEvent { return true; }
      ghost var k := old(View());
      threw := FillPool(failing);
      assert View() == Stocked(k, if threw then failing.value else INITIAL_POOL_SIZE);
      if !threw { Register(); }
    }

    method FillPool(failing: Option<nat>) returns (threw: bool)
      requires Valid()
      modifies this`counter
      modifies pool`created, pool.list`items, pool.list`nodes, pool.list.nodes`prev, pool.list.nodes`next
      ensures Valid() && (threw <==> failing.Some? && failing.value < INITIAL_POOL_SIZE)
      ensures View() == Stocked(old(View()), if threw then failing.value else INITIAL_POOL_SIZE)
    {
      ghost var created, items, es := pool.created, pool.list.items, Entries(pending.items);
      counter := 0;
      threw := pool.Fill(INITIAL_POOL_SIZE, failing);
      IdsGrow(created, pool.created, pool.destroyed);
      IdsGrow(created, pool.created, items);
      IdsAppend(pool.created, items, pool.created[|created|..]);
      IdsGrow(created, pool.created, pending.items);
      assert forall i | 0 <= i < |es| :: IdOf(pool.created, pending.items[i]) == IdsOf(created, pending.items)[i];
      assert Entries(pending.items) == es;
    }

    method Register()
      requires Valid()
      modifies this`registered
      ensures Valid() && registered && View() == old(View())
    {
      registered := true;
    }

    method ClearPooled()
      requires Valid()
      modifies pool`destroyed, pool.list`items, pool.list`nodes, pool.list.nodes`prev, pool.list.nodes`next
      ensures Valid() && View() == ClearPool(old(View()))
    {
      pool.Clear();
      assert IdsOf(pool.created, old(pool.destroyed) + old(pool.list.items))
          == IdsOf(pool.created, old(pool.destroyed)) + IdsOf(pool.created, old(pool.list.items));
    }

    /** `on_uninit`: unless its dispatch throws, every pooled item is destroyed. */
    method OnUninit() returns (threw: bool)
      requires Valid()
      modifies this`open, this`codecs, this`muxed, this`counter
      modifies pool`destroyed, pool.list`items, pool.list`nodes, pool.list.nodes`prev, pool.list.nodes`next
      modifies pending`items, pending`nodes, pending.nodes`prev, pending.nodes`next
      ensures Valid() && !open && View().pending == [] && old(muxed) <= muxed
      ensures threw ==> DispatchBroken(old(View()), View())
      ensures InRange(old(View()), old(View()).pending)
      ensures !threw ==> View() == ClearPool(Dispatched(old(View())))
    {
      open := false;
      assert View() == old(View());
      threw := Dispatch();
      if !threw { ClearPooled(); }
    }
  }
}
