/**
 The queue's indices are w-bit words that wrap around. Every comparison, count and
 ring position computed on the words is the one the unbounded models compute, as
 long as the true differences involved stay within half the range.
 */
module Wrap {
  import opened Modular
  import Claim
  import ExplicitIndex
  import ImplicitIndex

  function Pow2(n: nat): (p: int)
    ensures p > 0
  {
    if n == 0 then 1 else 2 * Pow2(n - 1)
  }

  // ---------------------------------------------------------- w-bit words

  /** The word that stands for x. */
  function Word(w: nat, x: int): (r: nat)
    ensures r < Pow2(w)
  {
    Mod(x, Pow2(w))
  }

  /** Unsigned comparison up to wrap-around, by the sign of the difference. */
  predicate CircularLess(w: nat, a: nat, b: nat)
    requires w > 0
  {
    Word(w, a - b) > Pow2(w - 1)
  }

  /** A word read as a two's complement number. */
  function Signed(w: nat, x: nat): int
    requires w > 0
  {
    if x < Pow2(w - 1) then x else x - Pow2(w)
  }

  function And(x: nat, y: nat): nat {
    if x == 0 || y == 0 then 0 else 2 * And(x / 2, y / 2) + (x % 2) * (y % 2)
  }

  /** Bitwise complement of a w-bit word. */
  function Not(w: nat, x: nat): nat
    requires x < Pow2(w)
  {
    Pow2(w) - 1 - x
  }

  // ------------------------------------------------------ arithmetic facts

  /** Wrapping an operand first makes no difference. */
  lemma WordAdd(w: nat, a: int, b: int)
    ensures Word(w, Word(w, a) + b) == Word(w, a + b)
  {
    ModAdd(a, b, Pow2(w));
  }

  lemma WordSub(w: nat, a: int, b: int)
    ensures Word(w, a - Word(w, b)) == Word(w, a - b)
  {
    var p := Steps(b, Pow2(w));
    ModShift(a - Word(w, b), a - b, p, Pow2(w));
  }

  lemma WordDifference(w: nat, a: int, b: int)
    ensures Word(w, Word(w, a) - Word(w, b)) == Word(w, a - b)
  {
    WordSub(w, Word(w, a), b);
    WordAdd(w, a, 0 - b);
  }

  /** The lowest bit splits off. */
  lemma LowBit(k: nat, x: int)
    requires k > 0
    ensures Word(k, x) == 2 * Word(k - 1, x / 2) + x % 2
  {
    ModHalf(x, Pow2(k - 1));
  }

  /** A nested truncation to fewer bits. */
  lemma {:induction false} WordOfWord(w: nat, k: nat, x: int)
    requires k <= w
    ensures Word(k, Word(w, x)) == Word(k, x)
  {
    if k > 0 {
      var y := Word(w, x);
      LowBit(w, x);
      assert y / 2 == Word(w - 1, x / 2) && y % 2 == x % 2;
      LowBit(k, x);
      LowBit(k, y);
      WordOfWord(w - 1, k - 1, x / 2);
    }
  }

  lemma {:induction false} Pow2Grows(k: nat, w: nat)
    requires k <= w
    ensures Pow2(k) <= Pow2(w)
  {
    if k < w { Pow2Grows(k, w - 1); }
  }

  /** Masking with 2^k - 1 keeps the k lowest bits. */
  lemma {:induction false} MaskIsWord(k: nat, x: nat)
    ensures And(x, Pow2(k) - 1) == Word(k, x)
  {
    if x > 0 && k > 0 {
      MaskIsWord(k - 1, x / 2);
      LowBit(k, x);
      assert (Pow2(k) - 1) / 2 == Pow2(k - 1) - 1 && (Pow2(k) - 1) % 2 == 1;
    }
  }

  lemma AndEven(x: nat, z: nat)
    ensures And(x, 2 * z) == 2 * And(x / 2, z)
  {
    assert (2 * z) / 2 == z && (2 * z) % 2 == 0;
    if x > 0 && z > 0 {
      assert And(x, 2 * z) == 2 * And(x / 2, (2 * z) / 2) + (x % 2) * 0;
    }
  }

  /** Masking with ~(2^k - 1) rounds down to a multiple of 2^k. */
  lemma {:induction false} MaskRoundsDown(w: nat, k: nat, x: nat)
    requires k <= w && x < Pow2(w) && Pow2(k) <= Pow2(w)
    ensures And(x, Not(w, Pow2(k) - 1)) == x - Word(k, x)
  {
    if k == 0 {
      MaskIsWord(w, x);
    } else {
      Pow2Grows(k - 1, w - 1);
      MaskRoundsDown(w - 1, k - 1, x / 2);
      LowBit(k, x);
      var y := Not(w - 1, Pow2(k - 1) - 1);
      AndEven(x, y);
      assert Not(w, Pow2(k) - 1) == 2 * y;
      assert And(x, 2 * y) == 2 * (x / 2) - 2 * Word(k - 1, x / 2);
    }
  }

  // ------------------------------------------------------------ comparisons

  /**
   On indices less than a full range apart, the word comparison is the true one
   exactly when the distance is within half a range (and not below it by exactly half).
   */
  lemma CircularLessExact(w: nat, a: int, b: int)
    requires w > 0 && -Pow2(w) < a - b < Pow2(w)
    ensures (CircularLess(w, Word(w, a), Word(w, b)) <==> a < b) <==> -Pow2(w - 1) < a - b <= Pow2(w - 1)
  {
    WordDifference(w, a, b);
    ModNear(a - b, Pow2(w));
  }

  /** The test of `dequeue` is the test of `dequeue_bulk`, on any words. */
  lemma SameTest(w: nat, a: nat, b: nat)
    requires w > 0
    ensures CircularLess(w, a, b) <==> CircularLess(w, 0, Word(w, b - a))
  {
    WordSub(w, 0, b - a);
    assert 0 - (b - a) == a - b;
  }

  /** A positive difference is recognised, and is the difference itself. */
  lemma Difference(w: nat, d: int)
    requires w > 0 && -Pow2(w - 1) <= d < Pow2(w - 1)
    ensures CircularLess(w, 0, Word(w, d)) <==> 0 < d
    ensures 0 < d ==> Word(w, d) == d
    ensures Signed(w, Word(w, d)) == d
  {
    ModNear(d, Pow2(w));
    ModNear(-d, Pow2(w));
    WordSub(w, 0, d);
  }

  // --------------------------------------------- the claim protocol on words

  datatype Words = Words(tail: nat, head: nat, optimistic: nat, overcommit: nat, pcs: seq<Claim.Pc>)

  /** A consumer's registers as words; counts are not reduced. */
  function WrapPc(w: nat, p: Claim.Pc): Claim.Pc {
    match p
    case Idle => p
    case LoadOvercommit(max, tail) => Claim.LoadOvercommit(max, Word(w, tail))
    case LoadOptimistic(max, tail, over) => Claim.LoadOptimistic(max, Word(w, tail), Word(w, over))
    case Reserve(desired, over) => Claim.Reserve(desired, Word(w, over))
    case ReloadTail(desired, over, mine) => Claim.ReloadTail(desired, Word(w, over), Word(w, mine))
    case GiveBack(desired, mine, actual, claiming) => Claim.GiveBack(desired, Word(w, mine), actual, claiming)
    case ClaimHead(mine, actual) => Claim.ClaimHead(Word(w, mine), actual)
  }

  function WrapAll(w: nat, pcs: seq<Claim.Pc>): seq<Claim.Pc> {
    seq(|pcs|, i requires 0 <= i < |pcs| => WrapPc(w, pcs[i]))
  }

  ghost function Wrapped(w: nat, s: Claim.State): Words {
    Words(Word(w, s.tail), Word(w, s.head), Word(w, s.optimistic), Word(w, s.overcommit), WrapAll(w, s.pcs))
  }

  /** One atomic step of `dequeue_bulk` (or `dequeue`, with max 1) as the machine does it. */
  function WordAdvance(w: nat, m: Words, t: Claim.Tid): Words
    requires w > 0 && t < |m.pcs|
  {
    match m.pcs[t]
    case Idle => m
    case LoadOvercommit(max, tail) =>
      m.(pcs := m.pcs[t := Claim.LoadOptimistic(max, tail, m.overcommit)])
    case LoadOptimistic(max, tail, over) =>
      var desired := Word(w, tail - Word(w, m.optimistic - over));
      m.(pcs := m.pcs[t := if CircularLess(w, 0, desired) then Claim.Reserve(if desired < max then desired else max, over)
                           else Claim.Idle])
    case Reserve(desired, over) =>
      m.(optimistic := Word(w, m.optimistic + desired),
         pcs := m.pcs[t := Claim.ReloadTail(desired, over, m.optimistic)])
    case ReloadTail(desired, over, mine) =>
      var actual := Word(w, m.tail - Word(w, mine - over));
      if CircularLess(w, 0, actual) then
        var count := if desired < actual then desired else actual;
        m.(pcs := m.pcs[t := if count < desired then Claim.GiveBack(desired, mine, count, true)
                             else Claim.ClaimHead(mine, count)])
      else
        m.(pcs := m.pcs[t := Claim.GiveBack(desired, mine, 0, false)])
    case GiveBack(desired, mine, actual, claiming) =>
      m.(overcommit := Word(w, m.overcommit + Word(w, desired - actual)),
         pcs := m.pcs[t := if claiming then Claim.ClaimHead(mine, actual) else Claim.Idle])
    case ClaimHead(_, actual) =>
      m.(head := Word(w, m.head + actual), pcs := m.pcs[t := Claim.Idle])
  }

  /** The difference that thread t's next step tests is within half the range. */
  ghost predicate Near(w: nat, s: Claim.State, t: Claim.Tid)
    requires w > 0 && t < |s.pcs|
  {
    match s.pcs[t]
    case LoadOptimistic(_, tail, over) => -Pow2(w - 1) <= tail - (s.optimistic - over) < Pow2(w - 1)
    case ReloadTail(_, over, mine) => -Pow2(w - 1) <= s.tail - (mine - over) < Pow2(w - 1)
    case _ => true
  }

  lemma NestedDifference(w: nat, tail: int, opt: int, over: int)
    ensures Word(w, Word(w, tail) - Word(w, Word(w, opt) - Word(w, over))) == Word(w, tail - (opt - over))
  {
    WordDifference(w, opt, over);
    WordDifference(w, tail, opt - over);
  }

  lemma WrapUpdate(w: nat, pcs: seq<Claim.Pc>, t: nat, p: Claim.Pc)
    requires t < |pcs|
    ensures WrapAll(w, pcs[t := p]) == WrapAll(w, pcs)[t := WrapPc(w, p)]
  {
  }

  lemma LoadStep(w: nat, s: Claim.State, t: Claim.Tid)
    requires w > 0 && t < |s.pcs| && s.pcs[t].LoadOptimistic? && Near(w, s, t)
    ensures WordAdvance(w, Wrapped(w, s), t) == Wrapped(w, Claim.Advance(s, t))
  {
    var tail: int, over: int := s.pcs[t].tail, s.pcs[t].over;
    NestedDifference(w, tail, s.optimistic, over);
    Difference(w, tail - (s.optimistic - over));
    WrapUpdate(w, s.pcs, t, Claim.Advance(s, t).pcs[t]);
  }

  lemma ReloadStep(w: nat, s: Claim.State, t: Claim.Tid)
    requires w > 0 && t < |s.pcs| && s.pcs[t].ReloadTail? && Near(w, s, t)
    ensures WordAdvance(w, Wrapped(w, s), t) == Wrapped(w, Claim.Advance(s, t))
  {
    var over: int, mine: int := s.pcs[t].over, s.pcs[t].mine;
    NestedDifference(w, s.tail, mine, over);
    Difference(w, s.tail - (mine - over));
    WrapUpdate(w, s.pcs, t, Claim.Advance(s, t).pcs[t]);
  }

  lemma ReserveStep(w: nat, s: Claim.State, t: Claim.Tid)
    requires w > 0 && t < |s.pcs| && s.pcs[t].Reserve?
    ensures WordAdvance(w, Wrapped(w, s), t) == Wrapped(w, Claim.Advance(s, t))
  {
    WordAdd(w, s.optimistic, s.pcs[t].desired);
    WrapUpdate(w, s.pcs, t, Claim.Advance(s, t).pcs[t]);
  }

  lemma GiveBackStep(w: nat, s: Claim.State, t: Claim.Tid)
    requires w > 0 && t < |s.pcs| && s.pcs[t].GiveBack? && s.pcs[t].actual <= s.pcs[t].desired
    ensures WordAdvance(w, Wrapped(w, s), t) == Wrapped(w, Claim.Advance(s, t))
  {
    var n := s.pcs[t].desired - s.pcs[t].actual;
    WordAdd(w, s.overcommit, Word(w, n));
    WordAdd(w, n, s.overcommit);
    WrapUpdate(w, s.pcs, t, Claim.Advance(s, t).pcs[t]);
  }

  lemma ClaimStep(w: nat, s: Claim.State, t: Claim.Tid)
    requires w > 0 && t < |s.pcs| && s.pcs[t].ClaimHead?
    ensures WordAdvance(w, Wrapped(w, s), t) == Wrapped(w, Claim.Advance(s, t))
  {
    WordAdd(w, s.head, s.pcs[t].actual);
    WrapUpdate(w, s.pcs, t, Claim.Advance(s, t).pcs[t]);
  }

  /** One step on words is one step of the unbounded protocol, wrapped. */
  lemma WordStep(w: nat, s: Claim.State, t: Claim.Tid)
    requires w > 0 && t < |s.pcs| && Claim.ThreadOk(s, t) && Near(w, s, t)
    ensures WordAdvance(w, Wrapped(w, s), t) == Wrapped(w, Claim.Advance(s, t))
  {
    match s.pcs[t]
    case LoadOptimistic(_, _, _) => LoadStep(w, s, t);
    case ReloadTail(_, _, _) => ReloadStep(w, s, t);
    case Reserve(_, _) => ReserveStep(w, s, t);
    case GiveBack(_, _, _, _) => GiveBackStep(w, s, t);
    case ClaimHead(_, _) => ClaimStep(w, s, t);
    case Idle =>
    case LoadOvercommit(_, _) => WrapUpdate(w, s.pcs, t, Claim.Advance(s, t).pcs[t]);
  }

  /** One scheduled step: of a consumer, the start of a dequeue, or an enqueue. */
  datatype Label = Step(t: Claim.Tid) | Start(t: Claim.Tid, max: nat) | Enqueued(n: nat)

  ghost predicate Possible(s: Claim.State, l: Label) {
    match l
    case Step(t) => t < |s.pcs|
    case Start(t, _) => t < |s.pcs| && s.pcs[t].Idle?
    case Enqueued(_) => true
  }

  ghost function Do(s: Claim.State, l: Label): Claim.State
    requires Possible(s, l)
  {
    match l
    case Step(t) => Claim.Advance(s, t)
    case Start(t, max) => Claim.Begin(s, t, max)
    case Enqueued(n) => Claim.Publish(s, n)
  }

  function WordDo(w: nat, m: Words, l: Label): Words
    requires w > 0 && (l.Enqueued? || l.t < |m.pcs|)
  {
    match l
    case Step(t) => WordAdvance(w, m, t)
    case Start(t, max) => m.(pcs := m.pcs[t := Claim.LoadOvercommit(max, m.tail)])
    case Enqueued(n) => m.(tail := Word(w, m.tail + n))
  }

  /** The unbounded run of a schedule exists and every tested difference is within half the range. */
  ghost predicate NearRun(w: nat, s: Claim.State, ls: seq<Label>)
    requires w > 0
    decreases |ls|
  {
    ls == [] || (Possible(s, ls[0]) && (ls[0].Step? ==> Near(w, s, ls[0].t)) && NearRun(w, Do(s, ls[0]), ls[1..]))
  }

  ghost function RunOf(w: nat, s: Claim.State, ls: seq<Label>): Claim.State
    requires w > 0 && NearRun(w, s, ls)
    decreases |ls|
  {
    if ls == [] then s else RunOf(w, Do(s, ls[0]), ls[1..])
  }

  /** The machine's run; it stops at a label that names no thread. */
  function WordRun(w: nat, m: Words, ls: seq<Label>): Words
    requires w > 0
    decreases |ls|
  {
    if ls == [] || !(ls[0].Enqueued? || ls[0].t < |m.pcs|) then m
    else WordRun(w, WordDo(w, m, ls[0]), ls[1..])
  }

  lemma DoIsNext(s: Claim.State, l: Label)
    requires Claim.Inv(s) && Possible(s, l)
    ensures Claim.Inv(Do(s, l))
  {
    assert Claim.Next(s, Do(s, l));
    Claim.NextKeeps(s, Do(s, l));
  }

  lemma WordDoStep(w: nat, s: Claim.State, l: Label)
    requires w > 0 && Claim.Inv(s) && Possible(s, l) && (l.Step? ==> Near(w, s, l.t))
    ensures WordDo(w, Wrapped(w, s), l) == Wrapped(w, Do(s, l))
  {
    match l
    case Step(t) => assert Claim.ThreadOk(s, t); WordStep(w, s, t);
    case Start(t, max) => WrapUpdate(w, s.pcs, t, Claim.LoadOvercommit(max, s.tail));
    case Enqueued(n) => WordAdd(w, s.tail, n);
  }

  /**
   Refinement over whole runs: under any schedule of any number of threads, the
   machine with w-bit counters does what the unbounded protocol does.
   */
  lemma {:induction false} WordsRefineClaims(w: nat, s: Claim.State, ls: seq<Label>)
    requires w > 0 && Claim.Inv(s) && NearRun(w, s, ls)
    ensures WordRun(w, Wrapped(w, s), ls) == Wrapped(w, RunOf(w, s, ls)) && Claim.Inv(RunOf(w, s, ls))
    decreases |ls|
  {
    if ls != [] {
      DoIsNext(s, ls[0]);
      WordDoStep(w, s, ls[0]);
      WordsRefineClaims(w, Do(s, ls[0]), ls[1..]);
    }
  }

  // ---------------------------------------------------------- ring positions

  /** The number of blocks from a base key to the block of an index: a signed division, kept as a word. */
  function WordOffset(w: nat, b: nat, index: nat, base: nat): nat
    requires b < w && index < Pow2(w) && Pow2(b) <= Pow2(w)
  {
    var blockBase := And(index, Not(w, Pow2(b) - 1));
    Word(w, TruncDiv(Signed(w, Word(w, blockBase - base)), Pow2(b)))
  }

  /** The slot that a consumer computes from an index, the base key it loaded and that key's slot. */
  function WordSlot(w: nat, b: nat, k: nat, index: nat, base: nat, front: nat): nat
    requires b < w && index < Pow2(w) && Pow2(b) <= Pow2(w)
  {
    And(Word(w, front + WordOffset(w, b, index, base)), Pow2(k) - 1)
  }

  /** Subtracting a wrapped base from a wrapped index, both reduced by r in between. */
  lemma WrappedDistance(w: nat, i: int, r: int, base: int, x: int)
    requires x == Word(w, i)
    ensures Word(w, x - r - Word(w, base)) == Word(w, i - r - base)
  {
    WordSub(w, x - r, base);
    WordAdd(w, i, 0 - r - base);
    assert x + (0 - r - base) == x - r - base && i + (0 - r - base) == i - r - base;
  }

  lemma BlockBase(w: nat, b: nat, i: nat)
    requires b <= w && Pow2(b) <= Pow2(w)
    ensures And(Word(w, i), Not(w, Pow2(b) - 1)) == Word(w, i) - Word(b, i)
  {
    MaskRoundsDown(w, b, Word(w, i));
    WordOfWord(w, b, i);
  }

  /** The distance from a base to the block of index i, computed on words. */
  lemma BlockDistance(w: nat, b: nat, i: nat, base: int)
    requires b <= w && Pow2(b) <= Pow2(w)
    ensures var blockBase := And(Word(w, i), Not(w, Pow2(b) - 1));
      Word(w, blockBase - Word(w, base)) == Word(w, (i - Word(b, i)) - base)
  {
    BlockBase(w, b, i);
    WrappedDistance(w, i, Word(b, i), base, Word(w, i));
  }

  /** The masked sum of a slot and a wrapped offset. */
  lemma MaskedPosition(w: nat, k: nat, front: nat, q: int)
    requires k <= w
    ensures And(Word(w, front + Word(w, q)), Pow2(k) - 1) == Word(k, front + q)
  {
    WordAdd(w, q, front);
    MaskIsWord(k, Word(w, front + q));
    WordOfWord(w, k, front + q);
  }

  lemma OffsetRefines(w: nat, b: nat, i: nat, base: int, d: int)
    requires b < w && Pow2(b) <= Pow2(w)
    requires d == (i - Word(b, i)) - base && -Pow2(w - 1) <= d < Pow2(w - 1)
    ensures WordOffset(w, b, Word(w, i), Word(w, base)) == Word(w, TruncDiv(d, Pow2(b)))
  {
    BlockDistance(w, b, i, base);
    Difference(w, d);
  }

  lemma SlotAt(w: nat, b: nat, k: nat, i: nat, base: int, front: nat, d: int, q: int)
    requires b < w && k <= w && Pow2(b) <= Pow2(w)
    requires d == (i - Word(b, i)) - base && -Pow2(w - 1) <= d < Pow2(w - 1) && q == TruncDiv(d, Pow2(b))
    ensures WordSlot(w, b, k, Word(w, i), Word(w, base), front) == Word(k, front + q)
  {
    OffsetRefines(w, b, i, base, d);
    MaskedPosition(w, k, front, q);
  }

  /** Signed division and masked ring position equal the unbounded ones, also for a negative offset. */
  lemma SlotRefines(w: nat, b: nat, k: nat, i: nat, base: int, front: nat)
    requires b < w && k <= w && Pow2(b) <= Pow2(w)
    requires -Pow2(w - 1) <= (i - i % Pow2(b)) - base < Pow2(w - 1)
    ensures WordSlot(w, b, k, Word(w, i), Word(w, base), front)
      == Mod(front + TruncDiv((i - i % Pow2(b)) - base, Pow2(b)), Pow2(k))
  {
    var d := (i - i % Pow2(b)) - base;
    ModIs(i, Pow2(b));
    SlotAt(w, b, k, i, base, front, d, TruncDiv(d, Pow2(b)));
  }

  /** The lookup step of the explicit index model is the machine's. */
  lemma ExplicitSlot(w: nat, k: nat, s: ExplicitIndex.State, t: ExplicitIndex.Tid)
    requires w > 5 && k <= w && Pow2(5) <= Pow2(w)
    requires ExplicitIndex.Shaped(s) && t < |s.cons| && s.cons[t].LoadBase?
    requires s.headers[s.cons[t].h].size == Pow2(k)
    requires var c := s.cons[t];
      -Pow2(w - 1) <= (c.i - c.i % 32) - s.headers[c.h].base[c.f] < Pow2(w - 1)
    ensures var c := s.cons[t];
      ExplicitIndex.Consume(s, t).cons[t] == ExplicitIndex.LoadBlock(c.i, c.stop, c.h,
        WordSlot(w, 5, k, Word(w, c.i), Word(w, s.headers[c.h].base[c.f]), c.f))
  {
    var c := s.cons[t];
    assert Pow2(5) == 32;
    SlotRefines(w, 5, k, c.i, s.headers[c.h].base[c.f], c.f);
  }

  /** The lookup step of the implicit index model is the machine's. */
  lemma ImplicitSlot(w: nat, k: nat, s: ImplicitIndex.State, t: ImplicitIndex.Tid)
    requires w > 5 && k <= w && Pow2(5) <= Pow2(w)
    requires ImplicitIndex.Shaped(s) && t < |s.cons| && s.cons[t].LoadKey?
    requires s.headers[s.cons[t].h].ring.capacity == Pow2(k)
    requires var c := s.cons[t]; var ring := s.headers[c.h].ring;
      -Pow2(w - 1) <= (c.i - c.i % 32) - s.entries[ring.index[c.pos]].key < Pow2(w - 1)
    ensures var c := s.cons[t]; var ring := s.headers[c.h].ring;
      ImplicitIndex.Consume(s, t).cons[t] == ImplicitIndex.LoadValue(c.i, c.stop, c.h,
        WordSlot(w, 5, k, Word(w, c.i), Word(w, s.entries[ring.index[c.pos]].key), c.pos))
  {
    var c := s.cons[t];
    assert Pow2(5) == 32;
    SlotRefines(w, 5, k, c.i, s.entries[s.headers[c.h].ring.index[c.pos]].key, c.pos);
  }
}
