/**
 The pool of blocks and an implicit producer together: blocks are nodes of the
 free list of module FreeList, and come back to the producer after consumers have
 released them. `me` stands for the producer's share of the blocks: it owns, in the
 free list's sense, the blocks in use, and makes no calls of its own. A thread that
 got a block from the free list (or allocated it) hands it to `me`; the consumer
 that empties a block gets it from `me` and adds it to the free list.
 */
module BlockPool {
  import FreeList
  import I = ImplicitIndex
  import P = ImplicitProducer
  import C = ImplicitConsumer
  import R = ImplicitRuns

  type Tid = nat
  type Block = nat

  datatype State = State(me: Tid, f: FreeList.State, ix: I.State)

  // ---------------------------------------------------------------- steps

  /** Thread g, which owns block n, supplies it to the producer. */
  ghost predicate CanSupply(s: State, g: Tid, n: Block)
    requires FreeList.Shaped(s.f)
  {
    s.ix.prod == I.Requisition && g != s.me && FreeList.CanCall(s.f, g, FreeList.HandOver(n, s.me))
  }

  ghost function Supply(s: State, g: Tid, n: Block): State
    requires FreeList.Shaped(s.f) && I.Shaped(s.ix) && CanSupply(s, g, n)
  {
    s.(f := FreeList.Begin(s.f, g, FreeList.HandOver(n, s.me)), ix := I.Produce(s.ix, true, n))
  }

  /** Consumer t releases its block to thread u, which will call `add`. */
  ghost predicate CanRelease(s: State, t: Tid, u: Tid)
    requires FreeList.Shaped(s.f)
  {
    && t < |s.ix.cons| && s.ix.cons[t].FreeBlock? && u != s.me
    && FreeList.CanCall(s.f, s.me, FreeList.HandOver(s.ix.cons[t].block, u))
  }

  ghost function Release(s: State, t: Tid, u: Tid): State
    requires FreeList.Shaped(s.f) && I.Shaped(s.ix) && CanRelease(s, t, u)
  {
    s.(f := FreeList.Begin(s.f, s.me, FreeList.HandOver(s.ix.cons[t].block, u)), ix := I.Consume(s.ix, t))
  }

  /** The free list works on: an operation of any thread, or a call of another one. */
  ghost predicate ListStep(s: State, s': State)
    requires FreeList.Shaped(s.f)
  {
    || (exists u :: 0 <= u < |s.f.pcs| && s' == s.(f := FreeList.Advance(s.f, u)))
    || (exists u, c :: u != s.me && FreeList.CanCall(s.f, u, c) && s' == s.(f := FreeList.Begin(s.f, u, c)))
  }

  /** A step of the producer or a consumer that neither takes nor releases a block. */
  ghost predicate IndexStep(s: State, s': State)
    requires I.Shaped(s.ix)
  {
    || (s.ix.prod == I.Ready && s' == s.(ix := I.Enqueue(s.ix)))
    || (exists ok :: !(s.ix.prod == I.Requisition && ok) && s' == s.(ix := I.Produce(s.ix, ok, 0)))
    || (exists t, n: nat ::
          0 <= t < |s.ix.cons| && s.ix.cons[t].Idle? && 0 < n && s.ix.head + n <= s.ix.tail
          && s' == s.(ix := I.Claim(s.ix, t, n)))
    || (exists t :: 0 <= t < |s.ix.cons| && !s.ix.cons[t].FreeBlock? && s' == s.(ix := I.Consume(s.ix, t)))
  }

  /** A block changes hands. */
  ghost predicate JointStep(s: State, s': State)
    requires FreeList.Shaped(s.f) && I.Shaped(s.ix)
  {
    || (exists g, n :: CanSupply(s, g, n) && s' == Supply(s, g, n))
    || (exists t, u :: CanRelease(s, t, u) && s' == Release(s, t, u))
  }

  ghost predicate Next(s: State, s': State)
    requires FreeList.Shaped(s.f) && I.Shaped(s.ix)
  {
    ListStep(s, s') || IndexStep(s, s') || JointStep(s, s')
  }

  ghost predicate Init(s: State) {
    FreeList.Init(s.f) && R.Init(s.ix) && s.me < |s.f.pcs|
  }

  // ------------------------------------------------------------ invariant

  /** The free list records block n as the producer's. */
  ghost predicate Mine(loc: seq<FreeList.Loc>, me: Tid, n: Block) {
    n < |loc| && loc[n] == FreeList.Owned(me)
  }

  /** Block number b is filled and not released, and its block is the producer's. */
  ghost predicate InUseOk(loc: seq<FreeList.Loc>, me: Tid, hist: seq<Block>, freed: set<nat>, b: nat)
    requires b < |hist|
  {
    b !in freed ==> Mine(loc, me, hist[b])
  }

  ghost predicate AllInUseOk(loc: seq<FreeList.Loc>, me: Tid, hist: seq<Block>, freed: set<nat>) {
    forall b {:trigger InUseOk(loc, me, hist, freed, b)} :: 0 <= b < |hist| ==> InUseOk(loc, me, hist, freed, b)
  }

  ghost predicate Inv(s: State) {
    && FreeList.Inv(s.f) && I.Inv(s.ix)
    && s.me < |s.f.pcs| && s.f.pcs[s.me].Idle?
    && AllInUseOk(s.f.loc, s.me, s.ix.hist, s.ix.freed)
    && (s.ix.prod.StoreValue? ==> Mine(s.f.loc, s.me, s.ix.prod.block))
  }

  // ------------------------------------------------------- every step keeps it

  /** What the free list does meanwhile never touches the producer's blocks. */
  lemma LocFrame(loc: seq<FreeList.Loc>, loc': seq<FreeList.Loc>, me: Tid, hist: seq<Block>, freed: set<nat>)
    requires AllInUseOk(loc, me, hist, freed)
    requires forall n: nat :: Mine(loc, me, n) ==> Mine(loc', me, n)
    ensures AllInUseOk(loc', me, hist, freed)
  {
    forall b | 0 <= b < |hist| ensures InUseOk(loc', me, hist, freed, b) {
      assert InUseOk(loc, me, hist, freed, b);
    }
  }

  lemma AdvanceKeeps(s: State, u: Tid)
    requires Inv(s) && u < |s.f.pcs|
    ensures Inv(s.(f := FreeList.Advance(s.f, u)))
  {
    if u != s.me {
      var loc' := FreeList.Advance(s.f, u).loc;
      FreeList.AdvanceKeeps(s.f, u);
      forall n: nat | Mine(s.f.loc, s.me, n) ensures Mine(loc', s.me, n) {
        FreeList.OwnedKept(s.f, u, s.me, n);
      }
      LocFrame(s.f.loc, loc', s.me, s.ix.hist, s.ix.freed);
      OthersIdle(s.f, u, s.me);
    }
  }

  lemma OthersIdle(f: FreeList.State, u: Tid, me: Tid)
    requires FreeList.Shaped(f) && u < |f.pcs| && me < |f.pcs| && u != me
    ensures |FreeList.Advance(f, u).pcs| == |f.pcs| && FreeList.Advance(f, u).pcs[me] == f.pcs[me]
  {
  }

  lemma BeginKeeps(s: State, u: Tid, c: FreeList.Call)
    requires Inv(s) && u != s.me && FreeList.CanCall(s.f, u, c)
    ensures Inv(s.(f := FreeList.Begin(s.f, u, c)))
  {
    FreeList.BeginKeeps(s.f, u, c);
    LocFrame(s.f.loc, FreeList.Begin(s.f, u, c).loc, s.me, s.ix.hist, s.ix.freed);
  }

  /** A block that another thread owns is not in use. */
  lemma SuppliedIsFresh(s: State, g: Tid, n: Block)
    requires Inv(s) && CanSupply(s, g, n)
    ensures I.Fresh(s.ix, n)
  {
    forall b | 0 <= b < |s.ix.hist| && b !in s.ix.freed ensures s.ix.hist[b] != n {
      assert InUseOk(s.f.loc, s.me, s.ix.hist, s.ix.freed, b);
    }
  }

  lemma SupplyKeeps(s: State, g: Tid, n: Block)
    requires Inv(s) && CanSupply(s, g, n)
    ensures Inv(Supply(s, g, n))
  {
    SuppliedIsFresh(s, g, n);
    P.ProduceKeeps(s.ix, true, n);
    FreeList.BeginKeeps(s.f, g, FreeList.HandOver(n, s.me));
    LocFrame(s.f.loc, s.f.loc[n := FreeList.Owned(s.me)], s.me, s.ix.hist, s.ix.freed);
  }

  lemma ProduceKeeps(s: State, ok: bool)
    requires Inv(s) && !(s.ix.prod == I.Requisition && ok)
    ensures Inv(s.(ix := I.Produce(s.ix, ok, 0)))
  {
    var ix' := I.Produce(s.ix, ok, 0);
    P.ProduceKeeps(s.ix, ok, 0);
    forall b | 0 <= b < |ix'.hist| ensures InUseOk(s.f.loc, s.me, ix'.hist, ix'.freed, b) {
      if b < |s.ix.hist| { assert InUseOk(s.f.loc, s.me, s.ix.hist, s.ix.freed, b); }
    }
  }

  lemma ConsumeKeeps(s: State, t: Tid)
    requires Inv(s) && t < |s.ix.cons| && !s.ix.cons[t].FreeBlock?
    ensures Inv(s.(ix := I.Consume(s.ix, t)))
  {
    C.ConsumeKeeps(s.ix, t);
    assert I.Consume(s.ix, t).hist == s.ix.hist && I.Consume(s.ix, t).freed == s.ix.freed;
  }

  /** The block that a consumer releases is the producer's, and stands for no other block number in use. */
  lemma ReleaseFacts(s: State, t: Tid)
    requires Inv(s) && t < |s.ix.cons| && s.ix.cons[t].FreeBlock?
    ensures var c := s.ix.cons[t];
      && c.b < |s.ix.hist| && c.b !in s.ix.freed && c.block == s.ix.hist[c.b] && Mine(s.f.loc, s.me, c.block)
      && (forall b :: 0 <= b < |s.ix.hist| && b !in s.ix.freed && b != c.b ==> s.ix.hist[b] != c.block)
      && (s.ix.prod.StoreValue? ==> s.ix.prod.block != c.block)
  {
    var c := s.ix.cons[t];
    assert I.PlaceOk(s.ix.headers, s.ix.cur, s.ix.hist, s.ix.keyed, c) && I.DutyOk(s.ix.last, s.ix.nulled, s.ix.freed, c, t);
    assert InUseOk(s.f.loc, s.me, s.ix.hist, s.ix.freed, c.b);
  }

  lemma ReleaseKeeps(s: State, t: Tid, u: Tid)
    requires Inv(s) && CanRelease(s, t, u)
    ensures Inv(Release(s, t, u))
  {
    var c := s.ix.cons[t];
    var loc', freed' := s.f.loc[c.block := FreeList.Owned(u)], s.ix.freed + {c.b};
    ReleaseFacts(s, t);
    C.ConsumeKeeps(s.ix, t);
    FreeList.BeginKeeps(s.f, s.me, FreeList.HandOver(c.block, u));
    forall b | 0 <= b < |s.ix.hist| ensures InUseOk(loc', s.me, s.ix.hist, freed', b) {
      assert InUseOk(s.f.loc, s.me, s.ix.hist, s.ix.freed, b);
    }
    assert I.Consume(s.ix, t).freed == freed' && I.Consume(s.ix, t).hist == s.ix.hist;
  }

  lemma ListStepKeeps(s: State, s': State)
    requires Inv(s) && ListStep(s, s')
    ensures Inv(s')
  {
    if u :| 0 <= u < |s.f.pcs| && s' == s.(f := FreeList.Advance(s.f, u)) {
      AdvanceKeeps(s, u);
    } else {
      var u, c :| u != s.me && FreeList.CanCall(s.f, u, c) && s' == s.(f := FreeList.Begin(s.f, u, c));
      BeginKeeps(s, u, c);
    }
  }

  lemma IndexStepKeeps(s: State, s': State)
    requires Inv(s) && IndexStep(s, s')
    ensures Inv(s')
  {
    if s.ix.prod == I.Ready && s' == s.(ix := I.Enqueue(s.ix)) {
      P.EnqueueKeeps(s.ix);
    } else if ok :| !(s.ix.prod == I.Requisition && ok) && s' == s.(ix := I.Produce(s.ix, ok, 0)) {
      ProduceKeeps(s, ok);
    } else if t, n: nat :| 0 <= t < |s.ix.cons| && s.ix.cons[t].Idle? && 0 < n && s.ix.head + n <= s.ix.tail
                           && s' == s.(ix := I.Claim(s.ix, t, n)) {
      C.ClaimKeeps(s.ix, t, n);
    } else {
      var t :| 0 <= t < |s.ix.cons| && !s.ix.cons[t].FreeBlock? && s' == s.(ix := I.Consume(s.ix, t));
      ConsumeKeeps(s, t);
    }
  }

  lemma NextKeeps(s: State, s': State)
    requires Inv(s) && Next(s, s')
    ensures Inv(s')
  {
    if ListStep(s, s') {
      ListStepKeeps(s, s');
    } else if IndexStep(s, s') {
      IndexStepKeeps(s, s');
    } else if g, n :| CanSupply(s, g, n) && s' == Supply(s, g, n) {
      SupplyKeeps(s, g, n);
    } else {
      var t, u :| CanRelease(s, t, u) && s' == Release(s, t, u);
      ReleaseKeeps(s, t, u);
    }
  }

  // ------------------------------------------------------------- every run

  ghost predicate IsRun(run: seq<State>) {
    && run != [] && Init(run[0])
    && forall i :: 0 <= i < |run| - 1 ==> StepOk(run, i)
  }

  ghost predicate StepOk(run: seq<State>, i: nat)
    requires i < |run| - 1
  {
    FreeList.Shaped(run[i].f) && I.Shaped(run[i].ix) && Next(run[i], run[i+1])
  }

  ghost predicate Reachable(s: State) {
    exists run :: IsRun(run) && run[|run|-1] == s
  }

  lemma InitInv(s: State)
    requires Init(s)
    ensures Inv(s)
  {
    FreeList.InitInv(s.f);
    R.InitInv(s.ix);
  }

  lemma {:induction false} RunInv(run: seq<State>, i: nat)
    requires IsRun(run) && i < |run|
    ensures Inv(run[i])
  {
    if i == 0 {
      InitInv(run[0]);
    } else {
      RunInv(run, i - 1);
      assert StepOk(run, i - 1);
      NextKeeps(run[i-1], run[i]);
    }
  }

  lemma Safety(s: State)
    requires Reachable(s)
    ensures Inv(s)
  {
    var run :| IsRun(run) && run[|run|-1] == s;
    RunInv(run, |run| - 1);
  }

  // ------------------------------------------------------------- what it means

  /** The assumption of the index model holds: a block the pool supplies is never one in use. */
  lemma SupplyIsLegal(s: State, g: Tid, n: Block)
    requires Reachable(s) && FreeList.Shaped(s.f) && I.Shaped(s.ix) && CanSupply(s, g, n)
    ensures I.Fresh(s.ix, n) && R.Next(s.ix, Supply(s, g, n).ix)
  {
    Safety(s);
    SuppliedIsFresh(s, g, n);
    assert s.ix.prod == I.Requisition && Supply(s, g, n).ix == I.Produce(s.ix, true, n);
  }

  /** A release never finds the block in anybody else's hands: the free list may take it back. */
  lemma ReleaseIsLegal(s: State, t: Tid, u: Tid)
    requires Reachable(s) && FreeList.Shaped(s.f) && t < |s.ix.cons| && s.ix.cons[t].FreeBlock? && u < |s.f.pcs| && u != s.me
    ensures CanRelease(s, t, u)
  {
    Safety(s);
    ReleaseFacts(s, t);
  }

  /** A block in use is not on the free list, and no thread is adding or getting it. */
  lemma InUseIsOffTheList(s: State, b: nat)
    requires Reachable(s) && FreeList.Shaped(s.f) && b < |s.ix.hist| && b !in s.ix.freed
    ensures s.ix.hist[b] < |s.f.loc| && s.f.loc[s.ix.hist[b]] == FreeList.Owned(s.me)
    ensures !FreeList.Linked(s.f, s.ix.hist[b])
    ensures forall t :: 0 <= t < |s.f.pcs| && t != s.me ==> !FreeList.Controls(s.f, t, s.ix.hist[b])
  {
    Safety(s);
    assert InUseOk(s.f.loc, s.me, s.ix.hist, s.ix.freed, b);
    FreeList.LinkedIsOnList(s.f, s.ix.hist[b]);
    FreeList.ControlIsExclusive(s.f, s.ix.hist[b]);
  }
}
