/** Every step of the explicit producer keeps the invariant. */
module ExplicitProducer {
  import opened Common
  import opened Modular
  import opened ExplicitIndex

  /** Consumers keep their places when the producer only adds to the index. */
  lemma PlacesFrame(headers: seq<Header>, hist: seq<Block>, headers': seq<Header>, hist': seq<Block>, cons: seq<Consumer>)
    requires PlacesOk(headers, hist, cons)
    requires hist <= hist' && |headers| <= |headers'|
    requires forall h :: 0 <= h < |headers| ==>
      && headers'[h].size == headers[h].size && headers'[h].origin == headers[h].origin
      && headers[h].top <= headers'[h].top
    ensures PlacesOk(headers', hist', cons)
  {
    forall t | 0 <= t < |cons| ensures PlaceOk(headers', hist', cons[t]) {
      assert PlaceOk(headers, hist, cons[t]);
    }
  }

  lemma RegistersFrame(headers: seq<Header>, cur: int, headers': seq<Header>, cur': int, cons: seq<Consumer>)
    requires AllRegistersOk(headers, cur, cons) && |headers| <= |headers'| && cur <= cur'
    requires forall h :: 0 <= h < |headers| ==> headers'[h].size == headers[h].size
    ensures AllRegistersOk(headers', cur', cons)
  {
    forall t | 0 <= t < |cons| ensures RegistersOk(headers', cur', cons[t]) {
      assert RegistersOk(headers, cur, cons[t]);
    }
  }

  lemma HeadersFrame(hist: seq<Block>, lo: int, hist': seq<Block>, lo': int, headers: seq<Header>)
    requires HeadersOk(hist, lo, headers) && hist <= hist' && lo <= lo'
    ensures HeadersOk(hist', lo', headers)
  {
    forall h | 0 <= h < |headers| ensures HeaderOk(hist', lo', headers[h]) {
      assert HeaderOk(hist, lo, headers[h]);
      forall x | lo' <= x <= headers[h].top ensures EntryOk(hist', headers[h], x) {
        assert EntryOk(hist, headers[h], x);
      }
    }
  }

  /** The producer moved without touching the index, the blocks or the elements. */
  lemma ProducerLocal(s: State, p: Producer)
    requires Inv(s) && !Storing(s.prod) && !Storing(p)
    requires Shaped(s.(prod := p)) && ProgressOk(s.(prod := p))
    ensures Inv(s.(prod := p))
  {
  }

  lemma EnqueueKeeps(s: State)
    requires Inv(s) && s.prod.Ready?
    ensures Inv(Enqueue(s))
  {
    ProducerLocal(s, Enqueue(s).prod);
  }

  /** All flags of the oldest block set means all its elements are completed. */
  lemma OldestDone(hist: seq<Block>, lo: nat, done: set<nat>, flags: set<(Block, nat)>)
    requires FlagsOk(hist, lo, done, flags) && lo < |hist|
    requires forall f :: 0 <= f < BLOCK_SIZE ==> (hist[lo], f) in flags
    ensures forall x: nat :: x < (lo + 1) * BLOCK_SIZE ==> x in done
  {
    forall x: nat | x < (lo + 1) * BLOCK_SIZE ensures x in done {
      if x >= lo * BLOCK_SIZE {
        assert x / BLOCK_SIZE == lo && FlagOk(hist, done, flags, x);
        assert 0 <= Flag(x) < BLOCK_SIZE;
      }
    }
  }

  /** A block is reset and becomes the newest one. */
  lemma ResetFlags(hist: seq<Block>, lo: nat, done: set<nat>, flags: set<(Block, nat)>, b: Block, lo': nat)
    requires FlagsOk(hist, lo, done, flags) && lo <= lo' <= |hist|
    requires forall i :: lo' <= i < |hist| ==> hist[i] != b
    requires forall x: nat :: x < lo' * BLOCK_SIZE ==> x in done
    requires forall x :: x in done ==> x < |hist| * BLOCK_SIZE
    ensures FlagsOk(hist + [b], lo', done, Cleared(flags, b))
  {
    var flags' := Cleared(flags, b);
    forall x: nat | lo' * BLOCK_SIZE <= x < (|hist| + 1) * BLOCK_SIZE
      ensures FlagOk(hist + [b], done, flags', x)
    {
      if x < |hist| * BLOCK_SIZE {
        assert FlagOk(hist, done, flags, x);
        assert (hist + [b])[x / BLOCK_SIZE] == hist[x / BLOCK_SIZE] != b;
      } else {
        assert (hist + [b])[x / BLOCK_SIZE] == b;
      }
    }
  }

  lemma RotateRing(hist: seq<Block>, used: nat, tailBlock: Option<Block>, next: map<Block, Block>)
    requires RingOk(hist, used, tailBlock, next) && used > 0
    ensures RingOk(hist + [hist[|hist| - used]], used, Some(hist[|hist| - used]), next)
  {
  }

  lemma InsertRing(hist: seq<Block>, used: nat, tailBlock: Option<Block>, next: map<Block, Block>, b: Block)
    requires RingOk(hist, used, tailBlock, next) && forall i :: |hist| - used <= i < |hist| ==> hist[i] != b
    ensures tailBlock.Some? ==>
      RingOk(hist + [b], used + 1, Some(b), next[tailBlock.value := b][b := next[tailBlock.value]])
    ensures tailBlock.None? ==> RingOk(hist + [b], used + 1, Some(b), next[b := b])
  {
  }

  /** The block whose flags are all set is the oldest, and all its elements are completed. */
  lemma ReuseFacts(s: State)
    requires Inv(s) && s.prod.CheckEmpty? && s.prod.j + 1 == BLOCK_SIZE
    requires (s.next[s.tailBlock.value], s.prod.j) in s.flags
    ensures 0 <= Oldest(s) < |s.hist| && s.next[s.tailBlock.value] == s.hist[Oldest(s)]
    ensures forall x: nat :: x < (Oldest(s) + 1) * BLOCK_SIZE ==> x in s.done
  {
    OldestDone(s.hist, Oldest(s), s.done, s.flags);
  }

  lemma ReusedKeeps(s: State, lo: nat)
    requires Inv(s) && s.prod.CheckEmpty? && lo == Oldest(s) < |s.hist|
    requires forall x: nat :: x < (lo + 1) * BLOCK_SIZE ==> x in s.done
    ensures Inv(Reused(s, s.hist[lo]))
  {
    var b := s.hist[lo];
    RotateRing(s.hist, s.slotsUsed, s.tailBlock, s.next);
    ResetFlags(s.hist, lo, s.done, s.flags, b, lo + 1);
    HeadersFrame(s.hist, lo, s.hist + [b], lo + 1, s.headers);
    PlacesFrame(s.headers, s.hist, s.headers, s.hist + [b], s.cons);
  }

  lemma ReuseKeeps(s: State)
    requires Inv(s) && s.prod.CheckEmpty? && s.prod.j + 1 == BLOCK_SIZE
    requires (s.next[s.tailBlock.value], s.prod.j) in s.flags
    ensures Inv(Produce(s, true, 0))
  {
    ReuseFacts(s);
    ReusedKeeps(s, Oldest(s));
  }

  lemma RequisitionKeeps(s: State, b: Block)
    requires Inv(s) && s.prod.Requisition? && Fresh(s, b)
    ensures Inv(Produce(s, true, b))
  {
    var lo := Oldest(s);
    InsertRing(s.hist, s.slotsUsed, s.tailBlock, s.next, b);
    ResetFlags(s.hist, lo, s.done, s.flags, b, lo);
    HeadersFrame(s.hist, lo, s.hist + [b], lo, s.headers);
    PlacesFrame(s.headers, s.hist, s.headers, s.hist + [b], s.cons);
  }

  /** Slot arithmetic of a header: Pos is a walk around the ring. */
  lemma PosStep(h: Header, x: int, d: int)
    requires h.size > 0
    ensures Mod(Pos(h, x) + d, h.size) == Pos(h, x + d)
  {
    ModAdd(x - h.origin, d, h.size);
  }

  lemma PosDistinct(h: Header, x: int, y: int)
    requires h.size > 0 && x < y < x + h.size
    ensures Pos(h, x) != Pos(h, y)
  {
    ModDistinct(x - h.origin, y - h.origin, h.size);
  }

  /** The doubled index describes the same blocks, in slots counted from the oldest. */
  lemma DoubledOk(s: State)
    requires Inv(s) && s.prod.Grow?
    ensures HeaderOk(s.hist, Oldest(s), Doubled(s))
    ensures Doubled(s).top == |s.hist| - 1 && Pos(Doubled(s), |s.hist|) == s.slotsUsed
  {
    var d, lo, n := Doubled(s), Oldest(s), |s.hist|;
    assert d.origin == lo && n - lo == s.slotsUsed < d.size;
    if s.slotsUsed > 0 {
      var c := s.headers[s.cur];
      assert HeaderOk(s.hist, lo, c);
      forall x | lo <= x <= d.top ensures EntryOk(s.hist, d, x) {
        assert EntryOk(s.hist, c, x);
        PosStep(c, n, x - n);
        assert s.front - s.slotsUsed + (x - lo) == Pos(c, n) + (x - n);
      }
    }
  }

  lemma GrowKeeps(s: State)
    requires Inv(s) && s.prod.Grow?
    ensures Inv(Produce(s, true, 0))
  {
    var headers' := s.headers + [Doubled(s)];
    DoubledOk(s);
    PlacesFrame(s.headers, s.hist, headers', s.hist, s.cons);
    RegistersFrame(s.headers, s.cur, headers', |s.headers|, s.cons);
  }

  /** The producer overwrote only the slot after the newest entry of the current header. */
  lemma WriteSlot(hist: seq<Block>, lo: int, headers: seq<Header>, cur: nat, hd: Header, pos: nat)
    requires HeadersOk(hist, lo, headers) && cur < |headers| && HeaderShapes(headers)
    requires headers[cur].top + 1 - lo < hd.size && pos == Pos(headers[cur], headers[cur].top + 1)
    requires hd == headers[cur].(base := hd.base, block := hd.block) && |hd.base| == |hd.block| == hd.size
    requires forall i :: 0 <= i < hd.size && i != pos ==>
      hd.base[i] == headers[cur].base[i] && hd.block[i] == headers[cur].block[i]
    ensures HeadersOk(hist, lo, headers[cur := hd])
  {
    assert HeaderOk(hist, lo, headers[cur]);
    forall x | lo <= x <= hd.top ensures EntryOk(hist, hd, x) {
      assert EntryOk(hist, headers[cur], x);
      PosDistinct(hd, x, hd.top + 1);
    }
  }

  lemma StoreEntryKeeps(s: State)
    requires Inv(s) && (s.prod.StoreBase? || s.prod.StoreBlock?)
    ensures Inv(Produce(s, true, 0))
  {
    var s' := Produce(s, true, 0);
    WriteSlot(s.hist, Oldest(s), s.headers, s.cur, s'.headers[s.cur], s.front);
    PlacesFrame(s.headers, s.hist, s'.headers, s.hist, s.cons);
    RegistersFrame(s.headers, s.cur, s'.headers, s.cur, s.cons);
  }

  /** Publishing the slot just written makes the header describe one more block. */
  lemma PublishSlot(hist: seq<Block>, lo: int, headers: seq<Header>, cur: nat)
    requires HeadersOk(hist, lo, headers) && cur < |headers|
    requires var h := headers[cur];
      && h.size > 0 && 0 <= h.top + 1 < |hist| && h.top + 1 - lo < h.size && |h.base| == |h.block| == h.size
      && h.base[Pos(h, h.top + 1)] == (h.top + 1) * BLOCK_SIZE && h.block[Pos(h, h.top + 1)] == hist[h.top + 1]
    ensures var h := headers[cur];
      HeadersOk(hist, lo, headers[cur := h.(front := Pos(h, h.top + 1), top := h.top + 1)])
  {
    var h := headers[cur];
    var h' := h.(front := Pos(h, h.top + 1), top := h.top + 1);
    assert HeaderOk(hist, lo, h);
    forall x | lo <= x <= h'.top ensures EntryOk(hist, h', x) {
      if x <= h.top { assert EntryOk(hist, h, x); }
    }
  }

  /** The slot that the producer is about to publish. */
  ghost predicate ReadyToPublish(hist: seq<Block>, lo: int, headers: seq<Header>, cur: nat, front: nat) {
    cur < |headers| &&
    var h := headers[cur];
    && h.size > 0 && h.top + 1 == |hist| - 1 && h.top + 1 - lo < h.size && |h.base| == |h.block| == h.size
    && front == Pos(h, h.top + 1) && h.base[front] == (h.top + 1) * BLOCK_SIZE && h.block[front] == hist[h.top + 1]
  }

  lemma FrontFacts(s: State)
    requires Inv(s) && s.prod.StoreFront?
    ensures ReadyToPublish(s.hist, Oldest(s), s.headers, s.cur, s.front) && s.headers[s.cur].size == s.size
  {
  }

  lemma FrontStored(hist: seq<Block>, lo: int, headers: seq<Header>, cur: nat, front: nat, cons: seq<Consumer>, headers': seq<Header>)
    requires ReadyToPublish(hist, lo, headers, cur, front)
    requires HeadersOk(hist, lo, headers) && PlacesOk(headers, hist, cons) && AllRegistersOk(headers, cur, cons)
    requires headers' == headers[cur := headers[cur].(front := front, top := |hist| - 1)]
    ensures HeadersOk(hist, lo, headers') && PlacesOk(headers', hist, cons) && AllRegistersOk(headers', cur, cons)
    ensures Mod(front + 1, headers[cur].size) == Pos(headers'[cur], |hist|)
  {
    PublishSlot(hist, lo, headers, cur);
    PosStep(headers'[cur], |hist| - 1, 1);
    PlacesFrame(headers, hist, headers', hist, cons);
    RegistersFrame(headers, cur, headers', cur, cons);
  }

  lemma StoreFrontKeeps(s: State)
    requires Inv(s) && s.prod.StoreFront?
    ensures Inv(Produce(s, true, 0))
  {
    var headers' := s.headers[s.cur := s.headers[s.cur].(front := s.front, top := |s.hist| - 1)];
    FrontFacts(s);
    FrontStored(s.hist, Oldest(s), s.headers, s.cur, s.front, s.cons, headers');
  }

  lemma ConstructKeeps(s: State)
    requires Inv(s) && (s.prod.Construct? || s.prod.StoreTail?)
    ensures Inv(Produce(s, true, 0))
  {
  }

  lemma CheckEmptyKeeps(s: State)
    requires Inv(s) && s.prod.CheckEmpty?
    ensures Inv(Produce(s, true, 0))
  {
    var j := s.prod.j;
    if (s.next[s.tailBlock.value], j) in s.flags && j + 1 == BLOCK_SIZE {
      ReuseKeeps(s);
    } else {
      ProducerLocal(s, if (s.next[s.tailBlock.value], j) in s.flags then CheckEmpty(j + 1) else LoadHead);
    }
  }

  lemma LoadHeadKeeps(s: State)
    requires Inv(s) && s.prod.LoadHead?
    ensures Inv(Produce(s, true, 0))
  {
    ProducerLocal(s, Produce(s, true, 0).prod);
  }

  lemma FailKeeps(s: State, b: Block)
    requires Inv(s) && (s.prod.Grow? || s.prod.Requisition?)
    ensures Inv(Produce(s, false, b))
  {
    ProducerLocal(s, Ready);
  }

  lemma ProduceKeeps(s: State, ok: bool, b: Block)
    requires Inv(s) && (s.prod.Requisition? && ok ==> Fresh(s, b))
    ensures Inv(Produce(s, ok, b))
  {
    match s.prod
    case Ready =>
    case CheckEmpty(_) => CheckEmptyKeeps(s);
    case LoadHead => LoadHeadKeeps(s);
    case Grow => if ok { GrowKeeps(s); } else { FailKeeps(s, b); }
    case Requisition => if ok { RequisitionKeeps(s, b); } else { FailKeeps(s, b); }
    case StoreBase => StoreEntryKeeps(s);
    case StoreBlock => StoreEntryKeeps(s);
    case StoreFront => StoreFrontKeeps(s);
    case Construct => ConstructKeeps(s);
    case StoreTail => ConstructKeeps(s);
  }
}
