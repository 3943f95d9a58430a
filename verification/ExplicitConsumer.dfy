/** Every step of a consumer of an explicit producer keeps the invariant. */
module ExplicitConsumer {
  import opened Common
  import opened Modular
  import opened ExplicitIndex
  import opened ExplicitProducer

  /** Consumer t gets new registers, header, slot and block. */
  lemma MoveConsumer(s: State, t: Tid, c: Consumer)
    requires AllRegistersOk(s.headers, s.cur, s.cons) && PlacesOk(s.headers, s.hist, s.cons)
    requires t < |s.cons| && RegistersOk(s.headers, s.cur, c) && PlaceOk(s.headers, s.hist, c)
    ensures AllRegistersOk(s.headers, s.cur, s.cons[t := c]) && PlacesOk(s.headers, s.hist, s.cons[t := c])
  {
  }

  /** Consumer state c holds what consumer state c0 holds, except for the indices in `gone`. */
  ghost predicate HoldsBut(c0: Consumer, c: Consumer, gone: set<nat>) {
    && (!c.Idle? ==> !c0.Idle? && Holds(c, Begin(c)) && End(c) == End(c0))
    && forall x: nat :: Holds(c, x) <==> Holds(c0, x) && x !in gone
  }

  /** Completing indices that consumer t holds concerns no other consumer. */
  lemma HoldsComplete(holder: seq<Tid>, done: set<nat>, cons: seq<Consumer>, t: Tid, gone: set<nat>, c: Consumer)
    requires HoldsOk(holder, done, cons) && ClaimsOk(done, cons, holder)
    requires t < |cons| && (forall x :: x in gone ==> Holds(cons[t], x)) && HoldsBut(cons[t], c, gone)
    ensures HoldsOk(holder, done + gone, cons[t := c]) && ClaimsOk(done + gone, cons[t := c], holder)
  {
    assert HoldOk(holder, done, cons[t], t);
    var cons' := cons[t := c];
    forall u | 0 <= u < |cons'| ensures HoldOk(holder, done + gone, cons'[u], u) {
      assert HoldOk(holder, done, cons[u], u);
    }
  }

  /** Consumer t moved on within its claimed range; nothing else changed. */
  lemma ConsumerLocal(s: State, t: Tid, c: Consumer)
    requires Inv(s) && t < |s.cons| && HoldsBut(s.cons[t], c, {})
    requires RegistersOk(s.headers, s.cur, c) && PlaceOk(s.headers, s.hist, c)
    ensures Inv(s.(cons := s.cons[t := c]))
  {
    MoveConsumer(s, t, c);
    HoldsComplete(s.holder, s.done, s.cons, t, {}, c);
    assert s.done + {} == s.done;
  }

  lemma ClaimKeeps(s: State, t: Tid, n: nat)
    requires Inv(s) && t < |s.cons| && s.cons[t].Idle? && 0 < n && s.head + n <= s.tail
    ensures Inv(Claim(s, t, n))
  {
    var s' := Claim(s, t, n);
    assert |s.hist| > 0;
    forall u | 0 <= u < |s.cons| ensures HoldOk(s'.holder, s.done, s'.cons[u], u) {
      assert HoldOk(s.holder, s.done, s.cons[u], u);
    }
  }

  /** The header a consumer loads covers everything it claimed. */
  lemma LoadIndexKeeps(s: State, t: Tid)
    requires Inv(s) && t < |s.cons| && s.cons[t].LoadIndex?
    ensures Inv(Consume(s, t))
  {
    var LoadIndex(i, stop) := s.cons[t];
    assert HoldOk(s.holder, s.done, s.cons[t], t) && RegistersOk(s.headers, s.cur, s.cons[t]);
    assert (stop - 1) / BLOCK_SIZE <= Indexed(s) - 1;
    ConsumerLocal(s, t, LoadFront(i, stop, s.cur));
  }

  /** What a consumer that has not completed index i may rely on in header h. */
  lemma HeaderServes(s: State, t: Tid, h: nat, x: nat)
    requires Inv(s) && t < |s.cons| && !s.cons[t].Idle? && h < |s.headers|
    requires Begin(s.cons[t]) / BLOCK_SIZE <= x <= s.headers[h].top
    ensures Oldest(s) <= Begin(s.cons[t]) / BLOCK_SIZE
    ensures EntryOk(s.hist, s.headers[h], x)
    ensures s.headers[h].front == Pos(s.headers[h], s.headers[h].top)
  {
    assert HoldOk(s.holder, s.done, s.cons[t], t);
    assert s.holder[Begin(s.cons[t])] == t;
    assert HeaderOk(s.hist, Oldest(s), s.headers[h]);
  }

  lemma LoadFrontKeeps(s: State, t: Tid)
    requires Inv(s) && t < |s.cons| && s.cons[t].LoadFront?
    ensures Inv(Consume(s, t)) && Consume(s, t).cons[t].LoadBase?
  {
    var LoadFront(i, stop, h) := s.cons[t];
    assert PlaceOk(s.headers, s.hist, s.cons[t]) && HoldOk(s.holder, s.done, s.cons[t], t);
    var hd := s.headers[h];
    HeaderServes(s, t, h, hd.top);
    ConsumerLocal(s, t, LoadBase(i, stop, h, hd.front, hd.top));
  }

  lemma TruncDivExact(d: int)
    ensures TruncDiv(d * BLOCK_SIZE, BLOCK_SIZE) == d
  {
  }

  /** The signed offset from any entry not older than index i leads to the slot of i's block. */
  lemma OffsetLeadsHome(hist: seq<Block>, hd: Header, i: nat, f: nat, k: nat)
    requires EntryOk(hist, hd, k) && f == Pos(hd, k)
    ensures Mod(f + TruncDiv((i - i % BLOCK_SIZE) - hd.base[f], BLOCK_SIZE), hd.size) == Pos(hd, i / BLOCK_SIZE)
  {
    assert (i - i % BLOCK_SIZE) - hd.base[f] == (i / BLOCK_SIZE - k) * BLOCK_SIZE;
    TruncDivExact(i / BLOCK_SIZE - k);
    PosStep(hd, k, i / BLOCK_SIZE - k);
  }

  lemma LoadBaseKeeps(s: State, t: Tid)
    requires Inv(s) && t < |s.cons| && s.cons[t].LoadBase?
    ensures Inv(Consume(s, t))
  {
    var LoadBase(i, stop, h, f, k) := s.cons[t];
    assert PlaceOk(s.headers, s.hist, s.cons[t]) && HoldOk(s.holder, s.done, s.cons[t], t);
    HeaderServes(s, t, h, k);
    OffsetLeadsHome(s.hist, s.headers[h], i, f, k);
    var c := LoadBlock(i, stop, h, Pos(s.headers[h], i / BLOCK_SIZE));
    assert Consume(s, t) == s.(cons := s.cons[t := c]);
    ConsumerLocal(s, t, c);
  }

  lemma LoadBlockKeeps(s: State, t: Tid)
    requires Inv(s) && t < |s.cons| && s.cons[t].LoadBlock?
    ensures Inv(Consume(s, t))
  {
    var LoadBlock(i, stop, h, pos) := s.cons[t];
    assert PlaceOk(s.headers, s.hist, s.cons[t]) && HoldOk(s.holder, s.done, s.cons[t], t);
    HeaderServes(s, t, h, i / BLOCK_SIZE);
    ConsumerLocal(s, t, TakeElement(i, i, stop, h, pos, s.headers[h].block[pos]));
  }

  lemma TakePlace(headers: seq<Header>, hist: seq<Block>, c: Consumer)
    requires c.TakeElement? && PlaceOk(headers, hist, c)
    ensures PlaceOk(headers, hist, AfterTake(c)) && HoldsBut(c, AfterTake(c), {})
  {
  }

  lemma TakeElementKeeps(s: State, t: Tid)
    requires Inv(s) && t < |s.cons| && s.cons[t].TakeElement?
    ensures Inv(Consume(s, t))
  {
    var c := s.cons[t];
    assert PlaceOk(s.headers, s.hist, c) && RegistersOk(s.headers, s.cur, c);
    TakePlace(s.headers, s.hist, c);
    ConsumerLocal(s, t, AfterTake(c));
  }

  /** Setting the flag of index i completes it and no other. */
  lemma FlagSet(hist: seq<Block>, lo: nat, done: set<nat>, flags: set<(Block, nat)>, i: nat)
    requires FlagsOk(hist, lo, done, flags) && lo * BLOCK_SIZE <= i < |hist| * BLOCK_SIZE
    requires forall a, b :: lo <= a < b < |hist| ==> hist[a] != hist[b]
    ensures FlagsOk(hist, lo, done + {i}, flags + {(hist[i / BLOCK_SIZE], Flag(i))})
  {
    var flags' := flags + {(hist[i / BLOCK_SIZE], Flag(i))};
    forall x: nat | lo * BLOCK_SIZE <= x < |hist| * BLOCK_SIZE ensures FlagOk(hist, done + {i}, flags', x) {
      assert FlagOk(hist, done, flags, x);
      assert x != i ==> x / BLOCK_SIZE != i / BLOCK_SIZE || x % BLOCK_SIZE != i % BLOCK_SIZE;
      assert hist[x / BLOCK_SIZE] == hist[i / BLOCK_SIZE] ==> x / BLOCK_SIZE == i / BLOCK_SIZE;
    }
  }

  lemma NextPlace(headers: seq<Header>, hist: seq<Block>, c: Consumer)
    requires c.SetEmpty? && PlaceOk(headers, hist, c)
    ensures PlaceOk(headers, hist, AfterFlag(c, headers[c.h].size))
    ensures HoldsBut(c, AfterFlag(c, headers[c.h].size), {c.i - 1})
  {
    PosStep(headers[c.h], c.from / BLOCK_SIZE, 1);
    assert c.end != c.stop ==> c.end / BLOCK_SIZE == c.from / BLOCK_SIZE + 1;
  }

  /** The index whose flag is about to be set: held, in this block, and its flag is still clear. */
  lemma OwnElement(s: State, t: Tid)
    requires Inv(s) && t < |s.cons| && s.cons[t].SetEmpty?
    ensures var c := s.cons[t];
      && 0 < c.i && Holds(c, c.i - 1) && c.i - 1 < s.head && c.i - 1 !in s.done
      && Oldest(s) * BLOCK_SIZE <= c.i - 1 < |s.hist| * BLOCK_SIZE && c.blk == s.hist[(c.i - 1) / BLOCK_SIZE]
      && (c.blk, Flag(c.i - 1)) !in s.flags
  {
    var c := s.cons[t];
    assert PlaceOk(s.headers, s.hist, c) && HoldOk(s.holder, s.done, c, t);
    assert Holds(c, c.i - 1) && s.holder[c.i - 1] == t && FlagOk(s.hist, s.done, s.flags, c.i - 1);
  }

  lemma CompleteKeeps(s: State, t: Tid, c: Consumer, i: nat)
    requires Inv(s) && t < |s.cons| && Holds(s.cons[t], i) && HoldsBut(s.cons[t], c, {i})
    requires RegistersOk(s.headers, s.cur, c) && PlaceOk(s.headers, s.hist, c)
    requires i < s.head && Oldest(s) * BLOCK_SIZE <= i < |s.hist| * BLOCK_SIZE
    ensures Inv(s.(flags := s.flags + {(s.hist[i / BLOCK_SIZE], Flag(i))}, done := s.done + {i}, cons := s.cons[t := c]))
  {
    MoveConsumer(s, t, c);
    FlagSet(s.hist, Oldest(s), s.done, s.flags, i);
    HoldsComplete(s.holder, s.done, s.cons, t, {i}, c);
  }

  lemma SetEmptyKeeps(s: State, t: Tid)
    requires Inv(s) && t < |s.cons| && s.cons[t].SetEmpty?
    ensures Inv(Consume(s, t))
  {
    var c := s.cons[t];
    assert PlaceOk(s.headers, s.hist, c) && RegistersOk(s.headers, s.cur, c);
    OwnElement(s, t);
    NextPlace(s.headers, s.hist, c);
    CompleteKeeps(s, t, AfterFlag(c, s.headers[c.h].size), c.i - 1);
  }

  lemma ConsumeKeeps(s: State, t: Tid)
    requires Inv(s) && t < |s.cons|
    ensures Inv(Consume(s, t))
  {
    match s.cons[t]
    case Idle =>
    case LoadIndex(_, _) => LoadIndexKeeps(s, t);
    case LoadFront(_, _, _) => LoadFrontKeeps(s, t);
    case LoadBase(_, _, _, _, _) => LoadBaseKeeps(s, t);
    case LoadBlock(_, _, _, _) => LoadBlockKeeps(s, t);
    case TakeElement(_, _, _, _, _, _) => TakeElementKeeps(s, t);
    case SetEmpty(_, _, _, _, _, _, _) => SetEmptyKeeps(s, t);
  }
}
