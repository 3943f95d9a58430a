/** Every step of the implicit producer keeps the invariant. */
module ImplicitProducer {
  import opened Common
  import opened Modular
  import opened ImplicitIndex

  lemma ProducerLocal(s: State, p: Producer)
    requires Inv(s) && Shaped(s.(prod := p)) && ProgressOk(s.(prod := p))
    ensures Inv(s.(prod := p))
  {
  }

  lemma PosStep(r: Ring, x: int, d: int)
    requires r.capacity > 0
    ensures Mod(Pos(r, x) + d, r.capacity) == Pos(r, x + d)
  {
    ModAdd(x - r.origin, d, r.capacity);
  }

  /** Block numbers less than the capacity apart have different entries. */
  lemma EntDistinct(r: Ring, a: int, b: int)
    requires r.capacity > 0 && |r.index| == r.capacity && Injective(r.index)
    requires a != b && a - b < r.capacity && b - a < r.capacity
    ensures Ent(r, a) != Ent(r, b)
  {
    if a < b { ModDistinct(a - r.origin, b - r.origin, r.capacity); }
    else { ModDistinct(b - r.origin, a - r.origin, r.capacity); }
  }

  /** While the tail is at block n - 1, the next slot is that of block n. */
  lemma NewSlotIs(s: State)
    requires Shaped(s) && s.cur >= 0 && IndexOk(s.entries, s.headers, s.cur, s.keyed, s.hist, s.nulled)
    ensures NewSlot(s) == Pos(s.headers[s.cur].ring, s.headers[s.cur].top + 1)
    ensures NewEntry(s) == Ent(s.headers[s.cur].ring, s.headers[s.cur].top + 1)
    ensures TailEntry(s) == Ent(s.headers[s.cur].ring, s.headers[s.cur].top)
    ensures Mod(s.headers[s.cur].tail - 1, s.headers[s.cur].ring.capacity) == Pos(s.headers[s.cur].ring, s.headers[s.cur].top - 1)
  {
    assert LinkOk(s.headers[s.cur], s.headers[s.cur], Live(s.headers[s.cur].ring, s.keyed));
    PosStep(s.headers[s.cur].ring, s.headers[s.cur].top, 1);
    PosStep(s.headers[s.cur].ring, s.headers[s.cur].top, -1);
  }

  /** No block number near n shares n's entry. */
  ghost predicate Alone(r: Ring, n: int)
    requires r.capacity > 0 && |r.index| == r.capacity
  {
    forall b :: b != n && b - n < r.capacity && n - b < r.capacity ==> Ent(r, b) != Ent(r, n)
  }

  lemma EntAlone(r: Ring, n: int)
    requires r.capacity > 0 && |r.index| == r.capacity && Injective(r.index)
    ensures Alone(r, n)
  {
    forall b | b != n && b - n < r.capacity && n - b < r.capacity ensures Ent(r, b) != Ent(r, n) {
      EntDistinct(r, b, n);
    }
  }

  lemma LinksWeaken(headers: seq<Header>, cur: nat, live: int, live': int)
    requires LinksOk(headers, cur, live) && live <= live'
    ensures LinksOk(headers, cur, live')
  {
    forall h | 0 <= h < |headers| ensures LinkOk(headers[h], headers[cur], live') {
      assert LinkOk(headers[h], headers[cur], live);
    }
  }

  lemma PlacesKeyed(headers: seq<Header>, cur: int, hist: seq<Block>, keyed: nat, hist': seq<Block>, keyed': nat, cons: seq<Consumer>)
    requires PlacesOk(headers, cur, hist, keyed, cons) && hist <= hist' && keyed <= keyed'
    ensures PlacesOk(headers, cur, hist', keyed', cons)
  {
    forall t | 0 <= t < |cons| ensures PlaceOk(headers, cur, hist', keyed', cons[t]) {
      assert PlaceOk(headers, cur, hist, keyed, cons[t]);
    }
  }

  /** Writing the key of block n, whose slot is free, retires at most block n - capacity. */
  lemma KeyWritten(entries: seq<Entry>, r: Ring, keyed: nat, n: nat, entries': seq<Entry>)
    requires KeysOk(entries, r, keyed) && n <= keyed <= n + 1 && r.origin <= n && Alone(r, n)
    requires entries' == entries[Ent(r, n) := entries[Ent(r, n)].(key := n * BLOCK_SIZE)]
    ensures KeysOk(entries', r, n + 1)
  {
    forall b: nat | Live(r, n + 1) <= b < n + 1 ensures Keyed(entries', r, b) {
      if b != n { assert Keyed(entries, r, b); }
    }
    forall b: nat | n + 1 <= b < r.origin + r.capacity ensures Unkeyed(entries', r, b) {
      assert Unkeyed(entries, r, b);
    }
  }

  /** Values are judged over fewer block numbers when more keys are written. */
  lemma ValuesFrame(entries: seq<Entry>, r: Ring, keyed: nat, hist: seq<Block>, nulled: set<nat>, entries': seq<Entry>, keyed': nat)
    requires ValuesOk(entries, r, keyed, hist, nulled) && keyed <= keyed' && |entries'| == |entries|
    requires forall e :: 0 <= e < |entries| ==> entries'[e].value == entries[e].value
    ensures ValuesOk(entries', r, keyed', hist, nulled)
  {
    forall b: nat | Live(r, keyed') <= b < |hist| ensures Valued(entries', r, hist, nulled, b) {
      assert Valued(entries, r, hist, nulled, b);
    }
  }

  lemma KeysFrame(entries: seq<Entry>, r: Ring, keyed: nat, entries': seq<Entry>)
    requires KeysOk(entries, r, keyed) && |entries'| == |entries|
    requires forall e :: 0 <= e < |entries| ==> entries'[e].key == entries[e].key
    ensures KeysOk(entries', r, keyed)
  {
    forall b: nat | Live(r, keyed) <= b < keyed ensures Keyed(entries', r, b) {
      assert Keyed(entries, r, b);
    }
    forall b: nat | keyed <= b < r.origin + r.capacity ensures Unkeyed(entries', r, b) {
      assert Unkeyed(entries, r, b);
    }
  }

  /** The index after the key of block n has been written. */
  lemma KeyedIndex(entries: seq<Entry>, headers: seq<Header>, cur: nat, keyed: nat, hist: seq<Block>, nulled: set<nat>, entries': seq<Entry>)
    requires IndexOk(entries, headers, cur, keyed, hist, nulled) && cur < |headers| && headers[cur].ring.origin <= |hist| <= keyed <= |hist| + 1
    requires NulledOk(nulled, Live(headers[cur].ring, |hist| + 1))
    requires var e := Ent(headers[cur].ring, |hist|);
      e < |entries| && entries' == entries[e := entries[e].(key := |hist| * BLOCK_SIZE)]
    ensures IndexOk(entries', headers, cur, |hist| + 1, hist, nulled)
  {
    var r, n := headers[cur].ring, |hist|;
    EntAlone(r, n);
    KeyWritten(entries, r, keyed, n, entries');
    ValuesFrame(entries, r, keyed, hist, nulled, entries', n + 1);
    LinksWeaken(headers, cur, Live(r, keyed), Live(r, n + 1));
  }

  /** The slot of block n is free, so that writing its key retires only blocks out of the index. */
  lemma KeyFacts(s: State)
    requires Inv(s) && s.prod == StoreKey
    ensures NulledOk(s.nulled, Live(s.headers[s.cur].ring, |s.hist| + 1)) && s.tail == |s.hist| * BLOCK_SIZE
    ensures s.headers[s.cur].ring.origin <= |s.hist| <= s.keyed <= |s.hist| + 1 && NewEntry(s) == Ent(s.headers[s.cur].ring, |s.hist|)
  {
    NewSlotIs(s);
  }

  lemma StoreKeyKeeps(s: State)
    requires Inv(s) && s.prod == StoreKey
    ensures Inv(Produce(s, true, 0))
  {
    KeyFacts(s);
    KeyedIndex(s.entries, s.headers, s.cur, s.keyed, s.hist, s.nulled, Produce(s, true, 0).entries);
    PlacesKeyed(s.headers, s.cur, s.hist, s.keyed, s.hist, |s.hist| + 1, s.cons);
  }

  /** The tail of the current header moves to the slot of block number `top`. */
  lemma TailMoved(s: State, top: int, headers': seq<Header>)
    requires Inv(s) && s.cur >= 0 && |s.hist| - 1 <= top <= |s.hist|
    requires top < s.keyed && top - Live(s.headers[s.cur].ring, s.keyed) < s.headers[s.cur].ring.capacity
    requires headers' == s.headers[s.cur := Header(s.headers[s.cur].ring, Pos(s.headers[s.cur].ring, top), top)]
    ensures HeaderShapes(headers', |s.entries|) && TopsOk(headers', s.keyed)
    ensures LinksOk(headers', s.cur, Live(s.headers[s.cur].ring, s.keyed))
  {
    var live := Live(s.headers[s.cur].ring, s.keyed);
    forall h | 0 <= h < |headers'| ensures LinkOk(headers'[h], headers'[s.cur], live) {
      assert LinkOk(s.headers[h], s.headers[s.cur], live);
    }
  }

  lemma TailMovedConsumers(s: State, top: int, headers': seq<Header>)
    requires PlacesOk(s.headers, s.cur, s.hist, s.keyed, s.cons) && AllRegistersOk(s.headers, s.cur, s.cons)
    requires 0 <= s.cur < |s.headers| == |headers'| && |s.hist| - 1 <= top
    requires headers' == s.headers[s.cur := s.headers[s.cur].(tail := headers'[s.cur].tail, top := top)]
    ensures AllRegistersOk(headers', s.cur, s.cons) && PlacesOk(headers', s.cur, s.hist, s.keyed, s.cons)
  {
    forall t | 0 <= t < |s.cons|
      ensures PlaceOk(headers', s.cur, s.hist, s.keyed, s.cons[t]) && RegistersOk(headers', s.cur, s.cons[t])
    {
      assert PlaceOk(s.headers, s.cur, s.hist, s.keyed, s.cons[t]) && RegistersOk(s.headers, s.cur, s.cons[t]);
    }
  }

  lemma StoreIndexTailKeeps(s: State)
    requires Inv(s) && s.prod == StoreIndexTail
    ensures Inv(Produce(s, true, 0))
  {
    var headers' := Produce(s, true, 0).headers;
    NewSlotIs(s);
    TailMoved(s, |s.hist|, headers');
    TailMovedConsumers(s, |s.hist|, headers');
  }

  lemma RewindKeeps(s: State)
    requires Inv(s) && s.prod == Rewind
    ensures Inv(Produce(s, true, 0))
  {
    var headers' := Produce(s, true, 0).headers;
    NewSlotIs(s);
    TailMoved(s, |s.hist| - 1, headers');
    TailMovedConsumers(s, |s.hist| - 1, headers');
  }

  lemma RequisitionKeeps(s: State, ok: bool, b: Block)
    requires Inv(s) && s.prod == Requisition && (ok ==> Fresh(s, b))
    ensures Inv(Produce(s, ok, b))
  {
    if !ok { ProducerLocal(s, Rewind); }
  }

  /** Writing the value of block number n's entry concerns no other block number. */
  lemma ValueWritten(entries: seq<Entry>, r: Ring, keyed: nat, hist: seq<Block>, nulled: set<nat>, n: nat, v: Pointer, entries': seq<Entry>)
    requires ValuesOk(entries, r, keyed, hist, nulled) && |hist| <= keyed && Live(r, keyed) <= n < keyed && Alone(r, n)
    requires entries' == entries[Ent(r, n) := entries[Ent(r, n)].(value := v)]
    ensures forall b: nat :: Live(r, keyed) <= b < |hist| && b != n ==> Valued(entries', r, hist, nulled, b)
  {
    forall b: nat | Live(r, keyed) <= b < |hist| && b != n ensures Valued(entries', r, hist, nulled, b) {
      assert Valued(entries, r, hist, nulled, b);
    }
  }

  /** The producer writes the value of the block it is about to start. */
  lemma NewValue(s: State, v: Pointer, entries': seq<Entry>)
    requires Inv(s) && s.cur >= 0 && s.keyed == |s.hist| + 1
    requires var r, n := s.headers[s.cur].ring, |s.hist|;
      entries' == s.entries[Ent(r, n) := s.entries[Ent(r, n)].(value := v)]
    ensures var r := s.headers[s.cur].ring;
      KeysOk(entries', r, s.keyed) && ValuesOk(entries', r, s.keyed, s.hist, s.nulled)
  {
    var r := s.headers[s.cur].ring;
    EntAlone(r, |s.hist|);
    ValueWritten(s.entries, r, s.keyed, s.hist, s.nulled, |s.hist|, v, entries');
    KeysFrame(s.entries, r, s.keyed, entries');
  }

  lemma StoreNullKeeps(s: State)
    requires Inv(s) && s.prod == StoreNull
    ensures Inv(Produce(s, true, 0))
  {
    NewSlotIs(s);
    NewValue(s, Null, Produce(s, true, 0).entries);
  }

  lemma NoneDone(done: set<nat>, b: nat, head: nat)
    requires DoneOk(done, head) && head <= b * BLOCK_SIZE
    ensures DoneIn(done, b) == 0
  {
    assert DoneSet(done, b) == {};
  }

  /** Block number n joins the history with a block that is not in use. */
  lemma HistGrows(s: State, b: Block)
    requires Inv(s) && Fresh(s, b) && b in s.count && s.count[b] == 0 && s.head <= |s.hist| * BLOCK_SIZE
    ensures CountsOk(s.hist + [b], s.freed, s.done, s.count) && Distinct(s.hist + [b], s.freed)
    ensures LastOk(s.last, s.hist + [b], s.done) && |s.hist| !in s.nulled && |s.hist| !in s.freed
  {
    NoneDone(s.done, |s.hist|, s.head);
  }

  lemma ValuesExtend(entries: seq<Entry>, r: Ring, keyed: nat, hist: seq<Block>, nulled: set<nat>, b: Block)
    requires ValuesOk(entries, r, keyed, hist, nulled) && |hist| !in nulled && entries[Ent(r, |hist|)].value == To(b)
    ensures ValuesOk(entries, r, keyed, hist + [b], nulled)
  {
    forall i: nat | Live(r, keyed) <= i < |hist| + 1 ensures Valued(entries, r, hist + [b], nulled, i) {
      if i < |hist| { assert Valued(entries, r, hist, nulled, i); }
    }
  }

  lemma StoreValueKeeps(s: State)
    requires Inv(s) && s.prod.StoreValue?
    ensures Inv(Produce(s, true, 0))
  {
    var b, entries' := s.prod.block, Produce(s, true, 0).entries;
    NewSlotIs(s);
    HistGrows(s, b);
    NewValue(s, To(b), entries');
    ValuesExtend(entries', s.headers[s.cur].ring, s.keyed, s.hist, s.nulled, b);
    PlacesKeyed(s.headers, s.cur, s.hist, s.keyed, s.hist + [b], s.keyed, s.cons);
  }

  /** What is known of the header that is about to be doubled: it is full, and its tail is at block n - 1. */
  ghost predicate Full(p: Header, n: nat, next: nat) {
    && p.ring.capacity > 0 && |p.ring.index| == p.ring.capacity && next == 2 * p.ring.capacity
    && p.ring.origin + p.ring.capacity <= n && p.top == n - 1 && p.tail == Pos(p.ring, n - 1)
  }

  lemma GrowIsFull(s: State)
    requires Inv(s) && s.prod == Grow
    ensures Full(s.headers[s.cur], |s.hist|, s.nextCapacity)
  {
    assert LinkOk(s.headers[s.cur], s.headers[s.cur], Live(s.headers[s.cur].ring, s.keyed));
  }

  lemma DoubledShape(s: State)
    requires Shaped(s) && s.cur >= 0 && Full(s.headers[s.cur], |s.hist|, s.nextCapacity)
    ensures var d, p, n := Doubled(s), s.headers[s.cur], |s.hist|;
      && d.ring.capacity == 2 * p.ring.capacity && |d.ring.index| == d.ring.capacity
      && d.ring.origin == n - p.ring.capacity && d.top == n - 1 && d.tail == Pos(d.ring, n - 1)
  {
  }

  /** Slot i of the doubled index, for each half. */
  lemma DoubledEntAt(s: State, b: int)
    requires Shaped(s) && s.cur >= 0 && Full(s.headers[s.cur], |s.hist|, s.nextCapacity)
    ensures var d, p, n := Doubled(s).ring, s.headers[s.cur].ring, |s.hist|;
      && d.capacity > 0 && |d.index| == d.capacity
      && (d.origin <= b < n ==> Ent(d, b) == Ent(p, b))
      && (n <= b < n + p.capacity ==> Ent(d, b) == |s.entries| + (b - n))
  {
    var d, p, n := Doubled(s).ring, s.headers[s.cur].ring, |s.hist|;
    DoubledShape(s);
    if d.origin <= b < n {
      PosStep(p, n - 1, 1 + (b - d.origin));
    }
  }

  lemma DoubledEnt(s: State, b: int)
    requires Inv(s) && s.prod == Grow
    ensures var d, p, n := Doubled(s), s.headers[s.cur], |s.hist|;
      && d.ring.capacity > 0 && |d.ring.index| == d.ring.capacity && d.ring.origin == n - p.ring.capacity && d.top == n - 1
      && (d.ring.origin <= b < n ==> Ent(d.ring, b) == Ent(p.ring, b))
      && (n <= b < n + p.ring.capacity ==> Ent(d.ring, b) == |s.entries| + (b - n))
      && d.tail == Pos(d.ring, n - 1)
  {
    GrowIsFull(s);
    DoubledShape(s);
    DoubledEntAt(s, b);
  }

  /** Slot i of the doubled index holds the entry of block number origin + i. */
  lemma DoubledSlot(s: State, i: nat)
    requires Inv(s) && s.prod == Grow && i < Doubled(s).ring.capacity
    ensures var d, p := Doubled(s).ring, s.headers[s.cur].ring;
      && |d.index| == d.capacity == 2 * p.capacity
      && d.index[i] == if i < p.capacity then Ent(p, d.origin + i) else |s.entries| + (i - p.capacity)
  {
    var d := Doubled(s).ring;
    DoubledEnt(s, d.origin + i);
  }

  lemma DoubledApart(s: State, i: nat, j: nat)
    requires Inv(s) && s.prod == Grow && i < j < Doubled(s).ring.capacity
    ensures var d := Doubled(s).ring;
      |d.index| == d.capacity && d.index[i] != d.index[j] && d.index[i] < |s.entries| + s.headers[s.cur].ring.capacity
  {
    var d, p := Doubled(s).ring, s.headers[s.cur].ring;
    DoubledSlot(s, i);
    DoubledSlot(s, j);
    if j < p.capacity { EntDistinct(p, d.origin + i, d.origin + j); }
  }

  lemma DoubledInjective(s: State)
    requires Inv(s) && s.prod == Grow
    ensures Injective(Doubled(s).ring.index) && HeaderShape(Doubled(s), |s.entries| + s.headers[s.cur].ring.capacity)
  {
    var d, p := Doubled(s).ring, s.headers[s.cur].ring;
    DoubledSlot(s, d.capacity - 1);
    forall i, j | 0 <= i < j < d.capacity ensures d.index[i] != d.index[j] {
      DoubledApart(s, i, j);
    }
    forall i | 0 <= i < d.capacity ensures d.index[i] < |s.entries| + p.capacity {
      if i < d.capacity - 1 { DoubledApart(s, i, d.capacity - 1); }
    }
  }

  /** The doubled index keeps every key and value, and its new slots are invalid. */
  lemma DoubledContents(s: State, entries': seq<Entry>)
    requires Inv(s) && s.prod == Grow
    requires entries' == s.entries + Unused(s.headers[s.cur].ring.capacity)
    ensures var d := Doubled(s).ring;
      && Live(d, s.keyed) == Live(s.headers[s.cur].ring, s.keyed) == d.origin
      && KeysOk(entries', d, s.keyed) && ValuesOk(entries', d, s.keyed, s.hist, s.nulled)
  {
    var d, p, n := Doubled(s).ring, s.headers[s.cur].ring, |s.hist|;
    DoubledInjective(s);
    DoubledEnt(s, 0);
    forall b: nat | d.origin <= b < n ensures Keyed(entries', d, b) && Valued(entries', d, s.hist, s.nulled, b) {
      DoubledEnt(s, b);
      assert Keyed(s.entries, p, b) && Valued(s.entries, p, s.hist, s.nulled, b);
    }
    forall b: nat | n <= b < n + p.capacity ensures Unkeyed(entries', d, b) {
      DoubledEnt(s, b);
    }
  }

  lemma DoubledLinks(s: State)
    requires Inv(s) && s.prod == Grow
    ensures LinksOk(s.headers + [Doubled(s)], |s.headers|, Doubled(s).ring.origin)
  {
    var d, p, n := Doubled(s), s.headers[s.cur], |s.hist|;
    var headers' := s.headers + [d];
    DoubledEnt(s, 0);
    forall h | 0 <= h < |s.headers| ensures LinkOk(headers'[h], d, d.ring.origin) {
      assert LinkOk(s.headers[h], p, d.ring.origin);
      forall b | d.ring.origin <= b <= s.headers[h].top ensures Ent(s.headers[h].ring, b) == Ent(d.ring, b) {
        DoubledEnt(s, b);
      }
    }
    assert LinkOk(d, d, d.ring.origin);
  }

  lemma GrowKeeps(s: State)
    requires Inv(s) && s.prod == Grow
    ensures Inv(Produce(s, true, 0))
  {
    var d := Doubled(s);
    var s' := Produce(s, true, 0);
    DoubledEnt(s, 0);
    DoubledInjective(s);
    DoubledContents(s, s'.entries);
    DoubledLinks(s);
    GrowConsumers(s, d);
  }

  lemma GrowConsumers(s: State, d: Header)
    requires Inv(s) && s.prod == Grow
    ensures var headers' := s.headers + [d];
      && AllRegistersOk(headers', |s.headers|, s.cons)
      && PlacesOk(headers', |s.headers|, s.hist, s.keyed, s.cons)
  {
    var headers' := s.headers + [d];
    forall t | 0 <= t < |s.cons|
      ensures RegistersOk(headers', |s.headers|, s.cons[t]) && PlaceOk(headers', |s.headers|, s.hist, s.keyed, s.cons[t])
    {
      assert RegistersOk(s.headers, s.cur, s.cons[t]) && PlaceOk(s.headers, s.cur, s.hist, s.keyed, s.cons[t]);
    }
  }

  /** What the producer finds in the slot it wants for block n. */
  lemma ProbeSees(s: State)
    requires Inv(s) && s.prod == Probe
    ensures var r, n, e := s.headers[s.cur].ring, |s.hist|, s.entries[NewEntry(s)];
      && (s.keyed == n + 1 ==> e.value == Null)
      && (s.keyed == n && n - r.origin < r.capacity ==> e.key == INVALID_BLOCK_BASE)
      && (s.keyed == n && n - r.origin >= r.capacity ==>
            e.key != INVALID_BLOCK_BASE && (e.value == Null <==> n - r.capacity in s.nulled))
  {
    var r, n := s.headers[s.cur].ring, |s.hist|;
    NewSlotIs(s);
    if s.keyed == n {
      if n - r.origin >= r.capacity {
        var o := n - r.capacity;
        assert Keyed(s.entries, r, o) && Valued(s.entries, r, s.hist, s.nulled, o);
      } else {
        assert Unkeyed(s.entries, r, n);
      }
    }
  }

  lemma ProbeKeeps(s: State)
    requires Inv(s) && s.prod == Probe
    ensures Inv(Produce(s, true, 0))
  {
    ProbeSees(s);
    ProducerLocal(s, Produce(s, true, 0).prod);
  }

  lemma LoadHeadKeeps(s: State)
    requires Inv(s) && s.prod == LoadHead
    ensures Inv(Produce(s, true, 0))
  {
    ProducerLocal(s, Produce(s, true, 0).prod);
  }

  lemma StoreTailKeeps(s: State)
    requires Inv(s) && s.prod == StoreTail
    ensures Inv(Produce(s, true, 0))
  {
  }

  lemma EnqueueKeeps(s: State)
    requires Inv(s) && s.prod == Ready
    ensures Inv(Enqueue(s))
  {
    ProducerLocal(s, Enqueue(s).prod);
  }

  lemma ProduceKeeps(s: State, ok: bool, b: Block)
    requires Inv(s) && (s.prod == Requisition && ok ==> Fresh(s, b))
    ensures Inv(Produce(s, ok, b))
  {
    match s.prod
    case Ready =>
    case LoadHead => LoadHeadKeeps(s);
    case Probe => ProbeKeeps(s);
    case Grow => if ok { GrowKeeps(s); } else { ProducerLocal(s, Ready); }
    case StoreKey => StoreKeyKeeps(s);
    case StoreIndexTail => StoreIndexTailKeeps(s);
    case Requisition => RequisitionKeeps(s, ok, b);
    case Rewind => RewindKeeps(s);
    case StoreNull => StoreNullKeeps(s);
    case StoreValue(_) => StoreValueKeeps(s);
    case StoreTail => StoreTailKeeps(s);
  }
}
