/** Every step of a consumer of an implicit producer keeps the invariant. */
module ImplicitConsumer {
  import opened Common
  import opened Modular
  import opened ImplicitIndex
  import opened ImplicitProducer

  lemma MoveConsumer(s: State, t: Tid, c: Consumer)
    requires AllRegistersOk(s.headers, s.cur, s.cons) && PlacesOk(s.headers, s.cur, s.hist, s.keyed, s.cons)
    requires t < |s.cons| && RegistersOk(s.headers, s.cur, c) && PlaceOk(s.headers, s.cur, s.hist, s.keyed, c)
    ensures AllRegistersOk(s.headers, s.cur, s.cons[t := c])
    ensures PlacesOk(s.headers, s.cur, s.hist, s.keyed, s.cons[t := c])
  {
  }

  predicate Plain(c: Consumer) {
    !c.StoreNullEntry? && !c.FreeBlock?
  }

  /** A consumer that releases nothing has no duty and is nobody's releaser. */
  lemma PlainConsumer(s: State, t: Tid, c: Consumer)
    requires ReleasesOk(s.last, s.freed, s.cons) && DutiesOk(s.last, s.nulled, s.freed, s.cons)
    requires t < |s.cons| && Plain(s.cons[t]) && Plain(c)
    ensures ReleasesOk(s.last, s.freed, s.cons[t := c]) && DutiesOk(s.last, s.nulled, s.freed, s.cons[t := c])
  {
  }

  lemma SameHolds(holder: seq<Tid>, done: set<nat>, cons: seq<Consumer>, t: Tid, c: Consumer)
    requires HoldsOk(holder, done, cons) && ClaimsOk(done, cons, holder) && t < |cons|
    requires Begin(c) == Begin(cons[t]) && End(c) == End(cons[t])
    ensures HoldsOk(holder, done, cons[t := c]) && ClaimsOk(done, cons[t := c], holder)
  {
    assert HoldOk(holder, done, cons[t], t);
    assert HoldOk(holder, done, c, t);
  }

  lemma ConsumerLocal(s: State, t: Tid, c: Consumer)
    requires Inv(s) && t < |s.cons| && Plain(s.cons[t]) && Plain(c)
    requires Begin(c) == Begin(s.cons[t]) && End(c) == End(s.cons[t])
    requires RegistersOk(s.headers, s.cur, c) && PlaceOk(s.headers, s.cur, s.hist, s.keyed, c)
    ensures Inv(s.(cons := s.cons[t := c]))
  {
    MoveConsumer(s, t, c);
    PlainConsumer(s, t, c);
    SameHolds(s.holder, s.done, s.cons, t, c);
  }

  lemma ClaimHolds(s: State, t: Tid, n: nat)
    requires HoldsOk(s.holder, s.done, s.cons) && ClaimsOk(s.done, s.cons, s.holder) && DoneOk(s.done, s.head)
    requires t < |s.cons| && s.cons[t].Idle? && |s.holder| == s.head
    ensures var s' := Claim(s, t, n);
      HoldsOk(s'.holder, s.done, s'.cons) && ClaimsOk(s.done, s'.cons, s'.holder)
  {
    var s' := Claim(s, t, n);
    forall u | 0 <= u < |s.cons| ensures HoldOk(s'.holder, s.done, s'.cons[u], u) {
      assert HoldOk(s.holder, s.done, s.cons[u], u);
    }
  }

  lemma ClaimKeeps(s: State, t: Tid, n: nat)
    requires Inv(s) && t < |s.cons| && s.cons[t].Idle? && 0 < n && s.head + n <= s.tail
    ensures Inv(Claim(s, t, n))
  {
    var c := LoadIndex(s.head, s.head + n);
    assert |s.hist| > 0;
    MoveConsumer(s, t, c);
    PlainConsumer(s, t, c);
    ClaimHolds(s, t, n);
  }

  lemma LoadIndexKeeps(s: State, t: Tid)
    requires Inv(s) && t < |s.cons| && s.cons[t].LoadIndex?
    ensures Inv(Consume(s, t))
  {
    assert PlaceOk(s.headers, s.cur, s.hist, s.keyed, s.cons[t]) && RegistersOk(s.headers, s.cur, s.cons[t]);
    assert LinkOk(s.headers[s.cur], s.headers[s.cur], Live(s.headers[s.cur].ring, s.keyed));
    ConsumerLocal(s, t, LoadIndexTail(s.cons[t].i, s.cons[t].stop, s.cur));
  }

  lemma LoadIndexTailKeeps(s: State, t: Tid)
    requires Inv(s) && t < |s.cons| && s.cons[t].LoadIndexTail?
    ensures Inv(Consume(s, t))
  {
    var LoadIndexTail(i, stop, h) := s.cons[t];
    assert PlaceOk(s.headers, s.cur, s.hist, s.keyed, s.cons[t]);
    assert LinkOk(s.headers[h], s.headers[s.cur], Live(s.headers[s.cur].ring, s.keyed));
    ConsumerLocal(s, t, LoadKey(i, stop, h, s.headers[h].tail, s.headers[h].top));
  }

  lemma DoneSetIn(done: set<nat>, b: nat)
    ensures forall x: nat :: x in DoneSet(done, b) <==> b * BLOCK_SIZE <= x < (b + 1) * BLOCK_SIZE && x in done
  {
    forall x: nat ensures x / BLOCK_SIZE == b <==> b * BLOCK_SIZE <= x < (b + 1) * BLOCK_SIZE {}
  }

  /** A block with all elements counted has all elements completed, and conversely. */
  lemma DoneInFull(done: set<nat>, b: nat)
    ensures DoneIn(done, b) <= BLOCK_SIZE
    ensures DoneIn(done, b) == BLOCK_SIZE <==> forall x: nat :: b * BLOCK_SIZE <= x < (b + 1) * BLOCK_SIZE ==> x in done
  {
    DoneSetIn(done, b);
    FullBetween(DoneSet(done, b), b * BLOCK_SIZE, (b + 1) * BLOCK_SIZE);
  }

  lemma FullBetween(d: set<nat>, lo: nat, hi: nat)
    requires lo <= hi && forall x :: x in d ==> lo <= x < hi
    ensures |d| <= hi - lo
    ensures |d| == hi - lo <==> forall x: nat :: lo <= x < hi ==> x in d
  {
    RangeCard(lo, hi);
    SubsetCard(d, Range(lo, hi));
    if forall x: nat :: lo <= x < hi ==> x in d {
      assert d == Range(lo, hi);
    }
  }

  lemma {:induction false} RangeCard(a: nat, b: nat)
    requires a <= b
    ensures |Range(a, b)| == b - a
  {
    if a < b {
      RangeCard(a, b - 1);
      DisjointCard(Range(a, b - 1), {b - 1});
    }
  }

  lemma SubsetCard(a: set<nat>, b: set<nat>)
    requires a <= b
    ensures |a| <= |b| && (|a| == |b| ==> a == b)
  {
    assert b == a + (b - a);
    assert |b| == |a| + |b - a|;
  }

  /** The block of an index not completed is neither complete, nor out of the index, nor freed. */
  lemma LiveBlock(s: State, x: nat)
    requires Inv(s) && x !in s.done
    ensures x / BLOCK_SIZE !in s.last && x / BLOCK_SIZE !in s.nulled && x / BLOCK_SIZE !in s.freed
    ensures s.cur >= 0 ==> Live(s.headers[s.cur].ring, s.keyed) <= x / BLOCK_SIZE
  {
    DoneInFull(s.done, x / BLOCK_SIZE);
  }

  /** Through header h a consumer reaches the current entry of a live block number. */
  lemma HeaderServes(s: State, h: nat, b: nat)
    requires Inv(s) && s.cur >= 0 && h < |s.headers| && Live(s.headers[s.cur].ring, s.keyed) <= b < s.keyed
    requires h == s.cur || b <= s.headers[h].top
    ensures Ent(s.headers[h].ring, b) == Ent(s.headers[s.cur].ring, b)
    ensures s.entries[Ent(s.headers[h].ring, b)].key == b * BLOCK_SIZE
    ensures b < |s.hist| && b !in s.nulled ==> s.entries[Ent(s.headers[h].ring, b)].value == To(s.hist[b])
  {
    assert LinkOk(s.headers[h], s.headers[s.cur], Live(s.headers[s.cur].ring, s.keyed));
    assert Keyed(s.entries, s.headers[s.cur].ring, b);
    if b < |s.hist| { assert Valued(s.entries, s.headers[s.cur].ring, s.hist, s.nulled, b); }
  }

  lemma OffsetLeadsHome(r: Ring, i: nat, k: nat)
    requires r.capacity > 0
    ensures Mod(Pos(r, k) + TruncDiv((i - i % BLOCK_SIZE) - k * BLOCK_SIZE, BLOCK_SIZE), r.capacity) == Pos(r, i / BLOCK_SIZE)
  {
    assert (i - i % BLOCK_SIZE) - k * BLOCK_SIZE == (i / BLOCK_SIZE - k) * BLOCK_SIZE;
    assert TruncDiv((i / BLOCK_SIZE - k) * BLOCK_SIZE, BLOCK_SIZE) == i / BLOCK_SIZE - k;
    PosStep(r, k, i / BLOCK_SIZE - k);
  }

  lemma TailKeyIs(s: State, t: Tid)
    requires Inv(s) && t < |s.cons| && s.cons[t].LoadKey?
    ensures var c := s.cons[t]; c.k >= 0 && s.entries[s.headers[c.h].ring.index[c.pos]].key == c.k * BLOCK_SIZE
  {
    var c := s.cons[t];
    assert PlaceOk(s.headers, s.cur, s.hist, s.keyed, c);
    assert HoldOk(s.holder, s.done, c, t) && s.holder[c.i] == t;
    LiveBlock(s, c.i);
    HeaderServes(s, c.h, c.k);
  }

  lemma LoadKeyKeeps(s: State, t: Tid)
    requires Inv(s) && t < |s.cons| && s.cons[t].LoadKey?
    ensures Inv(Consume(s, t))
  {
    var LoadKey(i, stop, h, pos, k) := s.cons[t];
    assert PlaceOk(s.headers, s.cur, s.hist, s.keyed, s.cons[t]);
    TailKeyIs(s, t);
    OffsetLeadsHome(s.headers[h].ring, i, k);
    var c := LoadValue(i, stop, h, Pos(s.headers[h].ring, i / BLOCK_SIZE));
    assert Consume(s, t) == s.(cons := s.cons[t := c]);
    ConsumerLocal(s, t, c);
  }

  /** The lookup assertion: key matches, value is the block, for a claimed uncompleted index. */
  lemma LookupHolds(s: State, t: Tid)
    requires Inv(s) && t < |s.cons| && s.cons[t].LoadValue?
    ensures var LoadValue(i, _, h, pos) := s.cons[t];
      && i / BLOCK_SIZE < |s.hist|
      && s.entries[s.headers[h].ring.index[pos]] == Entry(i - i % BLOCK_SIZE, To(s.hist[i / BLOCK_SIZE]))
  {
    var LoadValue(i, stop, h, pos) := s.cons[t];
    assert PlaceOk(s.headers, s.cur, s.hist, s.keyed, s.cons[t]);
    assert HoldOk(s.holder, s.done, s.cons[t], t) && s.holder[i] == t;
    LiveBlock(s, i);
    HeaderServes(s, h, i / BLOCK_SIZE);
  }

  lemma LoadValueKeeps(s: State, t: Tid)
    requires Inv(s) && t < |s.cons| && s.cons[t].LoadValue?
    ensures Inv(Consume(s, t))
  {
    var LoadValue(i, stop, h, pos) := s.cons[t];
    assert PlaceOk(s.headers, s.cur, s.hist, s.keyed, s.cons[t]) && RegistersOk(s.headers, s.cur, s.cons[t]);
    LookupHolds(s, t);
    var c := AddCount(i, stop, h, pos, s.hist[i / BLOCK_SIZE]);
    assert Consume(s, t) == s.(cons := s.cons[t := c]);
    ConsumerLocal(s, t, c);
  }

  lemma DoneSetAdds(done: set<nat>, i: nat, end: nat, b: nat)
    requires i <= end <= (i / BLOCK_SIZE + 1) * BLOCK_SIZE
    ensures DoneSet(done + Range(i, end), b) == DoneSet(done, b) + if b == i / BLOCK_SIZE then Range(i, end) else {}
  {
    forall x | i <= x < end ensures x / BLOCK_SIZE == i / BLOCK_SIZE {}
  }

  lemma DisjointCard(a: set<nat>, b: set<nat>)
    requires a !! b
    ensures |a + b| == |a| + |b|
  {
  }

  /** Completing [i, end) of block number b adds its length to b's count and to no other. */
  lemma DoneInAdds(done: set<nat>, i: nat, end: nat, b: nat)
    requires i <= end <= (i / BLOCK_SIZE + 1) * BLOCK_SIZE && forall x :: i <= x < end ==> x !in done
    ensures DoneIn(done + Range(i, end), b) == DoneIn(done, b) + if b == i / BLOCK_SIZE then end - i else 0
  {
    DoneSetAdds(done, i, end, b);
    DisjointCard(DoneSet(done, b), if b == i / BLOCK_SIZE then Range(i, end) else {});
    RangeCard(i, end);
  }

  lemma HoldsComplete(holder: seq<Tid>, done: set<nat>, cons: seq<Consumer>, t: Tid, i: nat, end: nat, c: Consumer)
    requires HoldsOk(holder, done, cons) && ClaimsOk(done, cons, holder)
    requires t < |cons| && Begin(cons[t]) == i <= end <= End(cons[t])
    requires if c.Idle? then End(cons[t]) == end else Begin(c) == end <= End(c) == End(cons[t])
    ensures HoldsOk(holder, done + Range(i, end), cons[t := c])
    ensures ClaimsOk(done + Range(i, end), cons[t := c], holder)
  {
    assert HoldOk(holder, done, cons[t], t);
    var cons', done' := cons[t := c], done + Range(i, end);
    forall u | 0 <= u < |cons'| ensures HoldOk(holder, done', cons'[u], u) {
      assert HoldOk(holder, done, cons[u], u);
    }
  }

  /** Where a consumer stands after counting, or after releasing, block number b. */
  lemma OnwardPlace(s: State, c: Consumer, i: nat, b: nat)
    requires !c.Idle? && !c.LoadIndex? && !c.LoadIndexTail?
    requires Covers(s.headers, s.hist, c.h, c.stop) && c.pos == Pos(s.headers[c.h].ring, b)
    requires i < c.stop ==> i == (b + 1) * BLOCK_SIZE
    ensures var c' := Onward(i, c.stop, c.h, c.pos, s.headers[c.h].ring.capacity);
      PlaceOk(s.headers, s.cur, s.hist, s.keyed, c') && RegistersOk(s.headers, s.cur, c')
  {
    PosStep(s.headers[c.h].ring, b, 1);
  }

  /** What AddCount does, given what the invariant knows about it. */
  ghost predicate Counting(s: State, t: Tid, i: nat, end: nat, full: bool, c: Consumer)
    requires t < |s.cons| && s.cons[t].AddCount?
  {
    var b, block := i / BLOCK_SIZE, s.cons[t].block;
    && i == s.cons[t].i < end && end == BlockEnd(i, s.cons[t].stop)
    && end <= s.cons[t].stop && end <= (b + 1) * BLOCK_SIZE
    && (end < s.cons[t].stop ==> end == (b + 1) * BLOCK_SIZE)
    && b < |s.hist| && block == s.hist[b] && b !in s.last && b !in s.nulled && b !in s.freed
    && block in s.count && s.count[block] == DoneIn(s.done, b)
    && full == (s.count[block] + (end - i) == BLOCK_SIZE)
    && (if full then c == StoreNullEntry(end, s.cons[t].stop, s.cons[t].h, s.cons[t].pos, block, b)
        else Plain(c) && if c.Idle? then end == s.cons[t].stop else Begin(c) == end && End(c) == s.cons[t].stop)
  }

  lemma CountCounts(s: State, t: Tid, i: nat, end: nat, full: bool, c: Consumer)
    requires Inv(s) && t < |s.cons| && s.cons[t].AddCount? && Counting(s, t, i, end, full, c)
    ensures var done', block := s.done + Range(i, end), s.cons[t].block;
      var last' := if full then s.last[i / BLOCK_SIZE := t] else s.last;
      && CountsOk(s.hist, s.freed, done', s.count[block := s.count[block] + (end - i)])
      && LastOk(last', s.hist, done') && DoneOk(done', s.head)
  {
    var done', b, block := s.done + Range(i, end), i / BLOCK_SIZE, s.cons[t].block;
    assert HoldOk(s.holder, s.done, s.cons[t], t);
    forall b' ensures DoneIn(done', b') == DoneIn(s.done, b') + if b' == b then end - i else 0 {
      DoneInAdds(s.done, i, end, b');
    }
    forall b' | 0 <= b' < |s.hist| && b' !in s.freed && b' != b ensures s.hist[b'] != block {}
  }

  lemma CountReleases(s: State, t: Tid, i: nat, end: nat, full: bool, c: Consumer)
    requires Inv(s) && t < |s.cons| && s.cons[t].AddCount? && Counting(s, t, i, end, full, c)
    ensures var last' := if full then s.last[i / BLOCK_SIZE := t] else s.last;
      && ReleasesOk(last', s.freed, s.cons[t := c]) && SetsOk(s.nulled, s.freed, last')
      && DutiesOk(last', s.nulled, s.freed, s.cons[t := c])
  {
    if full {
      var last', cons' := s.last[i / BLOCK_SIZE := t], s.cons[t := c];
      forall u | 0 <= u < |cons'| ensures DutyOk(last', s.nulled, s.freed, cons'[u], u) {
        assert DutyOk(s.last, s.nulled, s.freed, s.cons[u], u);
      }
    } else {
      PlainConsumer(s, t, c);
    }
  }

  lemma CountingHolds(s: State, t: Tid)
    requires Inv(s) && t < |s.cons| && s.cons[t].AddCount?
    ensures s.cons[t].block in s.count
    ensures var c, c' := s.cons[t], AfterCount(s, t);
      && Counting(s, t, c.i, BlockEnd(c.i, c.stop), c'.StoreNullEntry?, c')
      && RegistersOk(s.headers, s.cur, c') && PlaceOk(s.headers, s.cur, s.hist, s.keyed, c')
  {
    var c := s.cons[t];
    var end, b := BlockEnd(c.i, c.stop), c.i / BLOCK_SIZE;
    assert PlaceOk(s.headers, s.cur, s.hist, s.keyed, c) && RegistersOk(s.headers, s.cur, c);
    assert HoldOk(s.holder, s.done, c, t) && s.holder[c.i] == t;
    LiveBlock(s, c.i);
    OnwardPlace(s, c, end, b);
  }

  lemma AddCountKeeps(s: State, t: Tid)
    requires Inv(s) && t < |s.cons| && s.cons[t].AddCount?
    ensures Inv(Consume(s, t))
  {
    CountingHolds(s, t);
    CountedKeeps(s, t, AfterCount(s, t));
    CountStep(s, t);
  }

  lemma CountedProgress(s: State, t: Tid, c': Consumer)
    requires Inv(s) && t < |s.cons| && s.cons[t].AddCount? && s.cons[t].block in s.count
    requires s.cons[t].i <= BlockEnd(s.cons[t].i, s.cons[t].stop) && AllRegistersOk(s.headers, s.cur, s.cons[t := c'])
    requires s.prod.StoreValue? ==> s.prod.block != s.cons[t].block
    ensures Shaped(Counted(s, t, c')) && ProgressOk(Counted(s, t, c'))
  {
  }

  lemma CountedKeeps(s: State, t: Tid, c': Consumer)
    requires Inv(s) && t < |s.cons| && s.cons[t].AddCount?
    requires Counting(s, t, s.cons[t].i, BlockEnd(s.cons[t].i, s.cons[t].stop), c'.StoreNullEntry?, c')
    requires RegistersOk(s.headers, s.cur, c') && PlaceOk(s.headers, s.cur, s.hist, s.keyed, c')
    ensures Inv(Counted(s, t, c'))
  {
    var i, end := s.cons[t].i, BlockEnd(s.cons[t].i, s.cons[t].stop);
    CountCounts(s, t, i, end, c'.StoreNullEntry?, c');
    CountReleases(s, t, i, end, c'.StoreNullEntry?, c');
    MoveConsumer(s, t, c');
    CountedProgress(s, t, c');
    HoldsComplete(s.holder, s.done, s.cons, t, i, end, c');
  }

  lemma CountStep(s: State, t: Tid)
    requires Shaped(s) && t < |s.cons| && s.cons[t].AddCount? && s.cons[t].block in s.count
    requires s.cons[t].i <= BlockEnd(s.cons[t].i, s.cons[t].stop)
    ensures Consume(s, t) == Counted(s, t, AfterCount(s, t))
  {
  }

  /** The entry a releasing consumer clears is the current entry of its block. */
  lemma ReleaseEntry(s: State, t: Tid)
    requires Inv(s) && t < |s.cons| && s.cons[t].StoreNullEntry?
    ensures var c := s.cons[t];
      && s.cur >= 0 && c.b < |s.hist| && Live(s.headers[s.cur].ring, s.keyed) <= c.b
      && s.headers[c.h].ring.index[c.pos] == Ent(s.headers[s.cur].ring, c.b)
  {
    var c := s.cons[t];
    assert PlaceOk(s.headers, s.cur, s.hist, s.keyed, c) && DutyOk(s.last, s.nulled, s.freed, c, t);
    HeaderServes(s, c.h, c.b);
  }

  lemma NullValues(s: State, b: nat, entries': seq<Entry>)
    requires Inv(s) && s.cur >= 0 && Live(s.headers[s.cur].ring, s.keyed) <= b < |s.hist|
    requires var r := s.headers[s.cur].ring; entries' == s.entries[Ent(r, b) := s.entries[Ent(r, b)].(value := Null)]
    ensures var r := s.headers[s.cur].ring;
      && KeysOk(entries', r, s.keyed) && ValuesOk(entries', r, s.keyed, s.hist, s.nulled + {b})
      && NulledOk(s.nulled + {b}, Live(r, s.keyed))
  {
    var r := s.headers[s.cur].ring;
    EntAlone(r, b);
    KeysFrame(s.entries, r, s.keyed, entries');
    ValueWritten(s.entries, r, s.keyed, s.hist, s.nulled, b, Null, entries');
    forall i: nat | Live(r, s.keyed) <= i < |s.hist| ensures Valued(entries', r, s.hist, s.nulled + {b}, i) {
      if i != b { assert Valued(entries', r, s.hist, s.nulled, i); }
    }
  }

  /** Only the consumer that completed block number b releases it. */
  lemma NullDuties(s: State, t: Tid)
    requires Inv(s) && t < |s.cons| && s.cons[t].StoreNullEntry?
    ensures var c := s.cons[t]; var c' := FreeBlock(c.i, c.stop, c.h, c.pos, c.block, c.b);
      && DutiesOk(s.last, s.nulled + {c.b}, s.freed, s.cons[t := c'])
      && ReleasesOk(s.last, s.freed, s.cons[t := c']) && SetsOk(s.nulled + {c.b}, s.freed, s.last)
  {
    var c := s.cons[t];
    var cons' := s.cons[t := FreeBlock(c.i, c.stop, c.h, c.pos, c.block, c.b)];
    assert DutyOk(s.last, s.nulled, s.freed, c, t);
    forall u | 0 <= u < |cons'| ensures DutyOk(s.last, s.nulled + {c.b}, s.freed, cons'[u], u) {
      assert DutyOk(s.last, s.nulled, s.freed, s.cons[u], u);
    }
  }

  lemma NulledKeeps(s: State, t: Tid, c': Consumer, entries': seq<Entry>)
    requires Inv(s) && t < |s.cons| && s.cons[t].StoreNullEntry? && |entries'| == |s.entries| && s.cur >= 0
    requires c' == FreeBlock(s.cons[t].i, s.cons[t].stop, s.cons[t].h, s.cons[t].pos, s.cons[t].block, s.cons[t].b)
    requires IndexOk(entries', s.headers, s.cur, s.keyed, s.hist, s.nulled + {s.cons[t].b})
    requires s.keyed == |s.hist| + 1 ==>
      entries'[Ent(s.headers[s.cur].ring, |s.hist|)] == s.entries[Ent(s.headers[s.cur].ring, |s.hist|)]
    ensures Inv(s.(entries := entries', nulled := s.nulled + {s.cons[t].b}, cons := s.cons[t := c']))
  {
    var c := s.cons[t];
    assert PlaceOk(s.headers, s.cur, s.hist, s.keyed, c) && RegistersOk(s.headers, s.cur, c);
    NullDuties(s, t);
    MoveConsumer(s, t, c');
    SameHolds(s.holder, s.done, s.cons, t, c');
  }

  lemma StoreNullEntryKeeps(s: State, t: Tid)
    requires Inv(s) && t < |s.cons| && s.cons[t].StoreNullEntry?
    ensures Inv(Consume(s, t))
  {
    var c := s.cons[t];
    assert RegistersOk(s.headers, s.cur, c);
    ReleaseEntry(s, t);
    NullValues(s, c.b, Consume(s, t).entries);
    if s.keyed == |s.hist| + 1 { EntDistinct(s.headers[s.cur].ring, c.b, |s.hist|); }
    NulledKeeps(s, t, FreeBlock(c.i, c.stop, c.h, c.pos, c.block, c.b), Consume(s, t).entries);
  }

  lemma FreeDuties(s: State, t: Tid, c': Consumer)
    requires Inv(s) && t < |s.cons| && s.cons[t].FreeBlock? && Plain(c')
    ensures var freed' := s.freed + {s.cons[t].b};
      && DutiesOk(s.last, s.nulled, freed', s.cons[t := c']) && ReleasesOk(s.last, freed', s.cons[t := c'])
      && SetsOk(s.nulled, freed', s.last)
  {
    var c, cons', freed' := s.cons[t], s.cons[t := c'], s.freed + {s.cons[t].b};
    assert DutyOk(s.last, s.nulled, s.freed, c, t);
    forall u | 0 <= u < |cons'| ensures DutyOk(s.last, s.nulled, freed', cons'[u], u) {
      assert DutyOk(s.last, s.nulled, s.freed, s.cons[u], u);
    }
  }

  /** A consumer moves on without completing anything. */
  lemma HoldsOnward(holder: seq<Tid>, done: set<nat>, cons: seq<Consumer>, t: Tid, c: Consumer)
    requires HoldsOk(holder, done, cons) && ClaimsOk(done, cons, holder) && t < |cons| && Begin(cons[t]) <= End(cons[t])
    requires if c.Idle? then End(cons[t]) == Begin(cons[t]) else Begin(c) == Begin(cons[t]) <= End(c) == End(cons[t])
    ensures HoldsOk(holder, done, cons[t := c]) && ClaimsOk(done, cons[t := c], holder)
  {
    var i := Begin(cons[t]);
    assert Range(i, i) == {} && done + {} == done;
    HoldsComplete(holder, done, cons, t, i, i, c);
  }

  lemma FreedKeeps(s: State, t: Tid, c: Consumer)
    requires Inv(s) && t < |s.cons| && s.cons[t].FreeBlock? && Plain(c)
    requires RegistersOk(s.headers, s.cur, c) && PlaceOk(s.headers, s.cur, s.hist, s.keyed, c)
    requires Begin(s.cons[t]) <= End(s.cons[t])
    requires if c.Idle? then End(s.cons[t]) == Begin(s.cons[t]) else Begin(c) == Begin(s.cons[t]) <= End(c) == End(s.cons[t])
    ensures Inv(s.(freed := s.freed + {s.cons[t].b}, cons := s.cons[t := c]))
  {
    FreeDuties(s, t, c);
    MoveConsumer(s, t, c);
    HoldsOnward(s.holder, s.done, s.cons, t, c);
  }

  /** Where the releasing consumer goes next. */
  lemma FreedPlace(s: State, t: Tid)
    requires Inv(s) && t < |s.cons| && s.cons[t].FreeBlock? && RegistersOk(s.headers, s.cur, s.cons[t])
    ensures var c := s.cons[t];
      var c' := Onward(c.i, c.stop, c.h, c.pos, s.headers[c.h].ring.capacity);
      && Plain(c') && RegistersOk(s.headers, s.cur, c') && PlaceOk(s.headers, s.cur, s.hist, s.keyed, c')
      && Begin(c) <= End(c)
      && if c'.Idle? then End(c) == Begin(c) else Begin(c') == Begin(c) <= End(c') == End(c)
  {
    var c := s.cons[t];
    assert PlaceOk(s.headers, s.cur, s.hist, s.keyed, c) && HoldOk(s.holder, s.done, c, t);
    OnwardPlace(s, c, c.i, c.b);
  }

  lemma FreeBlockKeeps(s: State, t: Tid)
    requires Inv(s) && t < |s.cons| && s.cons[t].FreeBlock?
    ensures Inv(Consume(s, t))
  {
    var c := s.cons[t];
    assert RegistersOk(s.headers, s.cur, c);
    FreedPlace(s, t);
    FreedKeeps(s, t, Onward(c.i, c.stop, c.h, c.pos, s.headers[c.h].ring.capacity));
  }

  lemma ConsumeKeeps(s: State, t: Tid)
    requires Inv(s) && t < |s.cons|
    ensures Inv(Consume(s, t))
  {
    match s.cons[t]
    case Idle =>
    case LoadIndex(_, _) => LoadIndexKeeps(s, t);
    case LoadIndexTail(_, _, _) => LoadIndexTailKeeps(s, t);
    case LoadKey(_, _, _, _, _) => LoadKeyKeeps(s, t);
    case LoadValue(_, _, _, _) => LoadValueKeeps(s, t);
    case AddCount(_, _, _, _, _) => AddCountKeeps(s, t);
    case StoreNullEntry(_, _, _, _, _, _) => StoreNullEntryKeeps(s, t);
    case FreeBlock(_, _, _, _, _, _) => FreeBlockKeeps(s, t);
  }
}
