/**
 The implicit producer with its elements: the steps of ImplicitIndex, with the
 construction of an element before the tail is stored, and with a consumer moving
 the elements of its part of a block out of their cells, one by one, before it adds
 them to the block's count. A block all of whose elements are counted goes back to
 the pool and may come back for a later block number.
 */
module ImplicitElements {
  import opened Common
  import opened Storage
  import I = ImplicitIndex
  import P = ImplicitProducer
  import C = ImplicitConsumer
  import R = ImplicitRuns

  type Tid = nat

  /**
   `arg` is the value being enqueued, `tailBlock` the producer's newest block and
   `at` the next element of its block that each consumer takes; `built` and `got`
   are history.
   */
  datatype State = State(ix: I.State, arg: Option<Value>, tailBlock: Block, at: seq<nat>,
                         store: map<Cell, Value>, built: seq<Value>, got: map<nat, Value>)

  // ---------------------------------------------------------------- steps

  ghost function Enqueue(s: State, v: Value): State {
    s.(ix := I.Enqueue(s.ix), arg := Some(v))
  }

  /** An index step of the producer; storing the tail waits for the element. */
  ghost predicate CanProduce(s: State, ok: bool, b: Block) {
    && (s.ix.prod == I.Requisition && ok ==> I.Fresh(s.ix, b))
    && (s.ix.prod == I.StoreTail ==> |s.built| == s.ix.tail + 1)
  }

  ghost function Produce(s: State, ok: bool, b: Block): State
    requires I.Shaped(s.ix)
  {
    s.(ix := I.Produce(s.ix, ok, b), tailBlock := if s.ix.prod.StoreValue? then s.ix.prod.block else s.tailBlock)
  }

  ghost predicate CanConstruct(s: State) {
    s.ix.prod == I.StoreTail && |s.built| == s.ix.tail && s.arg.Some?
  }

  ghost function Construct(s: State): State
    requires CanConstruct(s)
  {
    s.(store := s.store[(s.tailBlock, s.ix.tail % BLOCK_SIZE) := s.arg.value], built := s.built + [s.arg.value])
  }

  ghost function Claim(s: State, t: Tid, n: nat): State
    requires t < |s.ix.cons|
  {
    s.(ix := I.Claim(s.ix, t, n))
  }

  /** Consumer t is done with its part of the block. */
  ghost predicate TookAll(c: I.Consumer, a: nat)
    requires c.AddCount?
  {
    a == I.BlockEnd(c.i, c.stop)
  }

  /** An index step of a consumer; adding to the count waits for the elements. */
  ghost predicate CanConsume(s: State, t: Tid) {
    t < |s.ix.cons| && t < |s.at| && (s.ix.cons[t].AddCount? ==> TookAll(s.ix.cons[t], s.at[t]))
  }

  ghost function Consume(s: State, t: Tid): State
    requires I.Shaped(s.ix) && CanConsume(s, t)
  {
    s.(ix := I.Consume(s.ix, t), at := if s.ix.cons[t].LoadValue? then s.at[t := s.ix.cons[t].i] else s.at)
  }

  /** Consumer t can take an element, which is there. */
  ghost predicate CanTake(s: State, t: Tid) {
    && t < |s.ix.cons| && t < |s.at| && s.ix.cons[t].AddCount?
    && s.at[t] < I.BlockEnd(s.ix.cons[t].i, s.ix.cons[t].stop)
    && (s.ix.cons[t].block, s.at[t] % BLOCK_SIZE) in s.store
  }

  ghost function Take(s: State, t: Tid): State
    requires CanTake(s, t)
  {
    var cell := (s.ix.cons[t].block, s.at[t] % BLOCK_SIZE);
    s.(got := s.got[s.at[t] := s.store[cell]], store := s.store - {cell}, at := s.at[t := s.at[t] + 1])
  }

  ghost predicate Next(s: State, s': State)
    requires I.Shaped(s.ix)
  {
    || (s.ix.prod == I.Ready && exists v :: s' == Enqueue(s, v))
    || (exists ok, b :: CanProduce(s, ok, b) && s' == Produce(s, ok, b))
    || (CanConstruct(s) && s' == Construct(s))
    || (exists t, n: nat ::
          0 <= t < |s.ix.cons| && s.ix.cons[t].Idle? && 0 < n && s.ix.head + n <= s.ix.tail && s' == Claim(s, t, n))
    || (exists t: nat :: CanConsume(s, t) && s' == Consume(s, t))
    || (exists t: nat :: CanTake(s, t) && s' == Take(s, t))
  }

  ghost predicate Init(s: State) {
    R.Init(s.ix) && |s.at| == |s.ix.cons| && s.store == map[] && s.built == [] && s.got == map[]
  }

  // ------------------------------------------------------------ invariant

  /** The first index of its range whose element a consumer has not taken. */
  function Ahead(c: I.Consumer, a: nat): nat {
    if c.AddCount? then a else I.Begin(c)
  }

  /** A consumer has taken exactly the elements before `Ahead`. */
  ghost predicate TakenOk(got: map<nat, Value>, c: I.Consumer, a: nat) {
    && (c.AddCount? ==> c.i <= a <= I.BlockEnd(c.i, c.stop))
    && (forall x: nat :: I.Begin(c) <= x < Ahead(c, a) ==> x in got)
    && (forall x: nat :: Ahead(c, a) <= x < I.End(c) ==> x !in got)
  }

  ghost predicate AllTakenOk(got: map<nat, Value>, cons: seq<I.Consumer>, at: seq<nat>) {
    |at| == |cons| && forall t {:trigger TakenOk(got, cons[t], at[t])} :: 0 <= t < |cons| ==> TakenOk(got, cons[t], at[t])
  }

  /** What was taken is what was constructed, and completed elements have been taken. */
  ghost predicate GotOk(done: set<nat>, head: nat, built: seq<Value>, got: map<nat, Value>) {
    && (forall x :: x in done ==> x in got)
    && (forall x :: x in got ==> x < head && x < |built| && got[x] == built[x])
  }

  /** How far construction is ahead of publication. */
  ghost predicate BuiltOk(p: I.Producer, tail: nat, n: nat) {
    n == tail || (p == I.StoreTail && n == tail + 1)
  }

  ghost predicate TailBlockOk(hist: seq<Block>, b: Block) {
    hist != [] ==> b == hist[|hist| - 1]
  }

  ghost predicate Inv(s: State) {
    && I.Inv(s.ix)
    && (s.ix.prod != I.Ready ==> s.arg.Some?)
    && BuiltOk(s.ix.prod, s.ix.tail, |s.built|) && TailBlockOk(s.ix.hist, s.tailBlock)
    && GotOk(s.ix.done, s.ix.head, s.built, s.got)
    && AllTakenOk(s.got, s.ix.cons, s.at)
    && Exact(s.ix.hist, s.built, s.got, s.store)
  }

  // -------------------------------------------- what the index invariant provides

  /** Elements not taken are in blocks in use, so they have different cells. */
  lemma CellsApart(ix: I.State, got: map<nat, Value>, n: nat)
    requires I.Inv(ix) && forall x :: x in ix.done ==> x in got
    ensures Apart(ix.hist, got, n)
  {
    forall x: nat, y: nat | x < y < n && x !in got && y !in got && y / BLOCK_SIZE < |ix.hist|
      ensures CellOf(ix.hist, x) != CellOf(ix.hist, y)
    {
      C.LiveBlock(ix, x);
      C.LiveBlock(ix, y);
      if x / BLOCK_SIZE == y / BLOCK_SIZE { assert x % BLOCK_SIZE != y % BLOCK_SIZE; }
    }
  }

  lemma ConstructFacts(ix: I.State)
    requires I.Inv(ix) && ix.prod == I.StoreTail
    ensures ix.hist != [] && ix.tail / BLOCK_SIZE == |ix.hist| - 1 && ix.head <= ix.tail
  {
  }

  /** Where consumer t stands, and that it alone holds its indices. */
  lemma ConsumerFacts(ix: I.State, t: Tid)
    requires I.Inv(ix) && t < |ix.cons|
    ensures I.PlaceOk(ix.headers, ix.cur, ix.hist, ix.keyed, ix.cons[t]) && I.End(ix.cons[t]) <= ix.head <= ix.tail
    ensures forall x: nat :: I.Holds(ix.cons[t], x) ==> x < |ix.holder| && ix.holder[x] == t
  {
    assert I.PlaceOk(ix.headers, ix.cur, ix.hist, ix.keyed, ix.cons[t]) && I.HoldOk(ix.holder, ix.done, ix.cons[t], t);
  }

  // ------------------------------------------------------- every step keeps it

  lemma EnqueueKeeps(s: State, v: Value)
    requires Inv(s) && s.ix.prod == I.Ready
    ensures Inv(Enqueue(s, v))
  {
    P.EnqueueKeeps(s.ix);
  }

  /** What a producer step leaves alone. */
  lemma ProduceFrame(ix: I.State, ok: bool, b: Block)
    requires I.Shaped(ix)
    ensures var ix' := I.Produce(ix, ok, b);
      && ix'.done == ix.done && ix'.head == ix.head && ix'.cons == ix.cons
      && ix'.hist == (if ix.prod.StoreValue? then ix.hist + [ix.prod.block] else ix.hist)
      && ix'.tail == ix.tail + (if ix.prod == I.StoreTail then 1 else 0)
      && (ix'.prod == I.StoreTail ==> ix.prod != I.Ready)
      && (ix'.prod != I.Ready ==> ix.prod != I.Ready)
  {
  }

  lemma ProduceKeeps(s: State, ok: bool, b: Block)
    requires Inv(s) && CanProduce(s, ok, b)
    ensures Inv(Produce(s, ok, b))
  {
    P.ProduceKeeps(s.ix, ok, b);
    ProduceFrame(s.ix, ok, b);
    if s.ix.prod.StoreValue? { Extends(s.ix.hist, s.built, s.got, s.store, s.ix.prod.block); }
  }

  lemma ConstructKeeps(s: State)
    requires Inv(s) && CanConstruct(s)
    ensures Inv(Construct(s)) && (s.tailBlock, s.ix.tail % BLOCK_SIZE) !in s.store
  {
    ConstructFacts(s.ix);
    CellsApart(s.ix, s.got, |s.built| + 1);
    Constructs(s.ix.hist, s.built, s.got, s.store, s.arg.value);
  }

  lemma ClaimKeeps(s: State, t: Tid, n: nat)
    requires Inv(s) && t < |s.ix.cons| && s.ix.cons[t].Idle? && 0 < n && s.ix.head + n <= s.ix.tail
    ensures Inv(Claim(s, t, n))
  {
    var ix' := I.Claim(s.ix, t, n);
    C.ClaimKeeps(s.ix, t, n);
    forall u | 0 <= u < |ix'.cons| ensures TakenOk(s.got, ix'.cons[u], s.at[u]) {
      if u != t { assert TakenOk(s.got, s.ix.cons[u], s.at[u]); }
    }
  }

  /** What a consumer step leaves alone. */
  lemma ConsumeFrame(ix: I.State, t: Tid)
    requires I.Shaped(ix) && t < |ix.cons|
    ensures var ix' := I.Consume(ix, t);
      && ix'.hist == ix.hist && ix'.head == ix.head && ix'.tail == ix.tail && ix'.prod == ix.prod
      && |ix'.cons| == |ix.cons| && ix'.cons == ix.cons[t := ix'.cons[t]]
      && (ix'.done == ix.done
          || (ix.cons[t].AddCount? && ix'.done == ix.done + I.Range(ix.cons[t].i, I.BlockEnd(ix.cons[t].i, ix.cons[t].stop))))
  {
  }

  /** A consumer's own account, after an index step. */
  lemma ConsumeTaken(ix: I.State, t: Tid, got: map<nat, Value>, a: nat)
    requires I.Shaped(ix) && t < |ix.cons| && TakenOk(got, ix.cons[t], a)
    requires ix.cons[t].AddCount? ==> TookAll(ix.cons[t], a) && ix.cons[t].block in ix.count
    requires I.PlaceOk(ix.headers, ix.cur, ix.hist, ix.keyed, ix.cons[t])
    ensures TakenOk(got, I.Consume(ix, t).cons[t], if ix.cons[t].LoadValue? then ix.cons[t].i else a)
  {
  }

  lemma CountKnown(ix: I.State, t: Tid)
    requires I.Inv(ix) && t < |ix.cons| && ix.cons[t].AddCount?
    ensures ix.cons[t].block in ix.count
  {
    C.CountingHolds(ix, t);
  }

  lemma ConsumeAccounts(s: State, t: Tid)
    requires Inv(s) && CanConsume(s, t)
    ensures var s' := Consume(s, t);
      && s'.ix.hist == s.ix.hist && s'.ix.prod == s.ix.prod && s'.ix.tail == s.ix.tail
      && GotOk(s'.ix.done, s'.ix.head, s.built, s.got) && AllTakenOk(s.got, s'.ix.cons, s'.at)
  {
    var s' := Consume(s, t);
    ConsumeFrame(s.ix, t);
    ConsumerFacts(s.ix, t);
    if s.ix.cons[t].AddCount? { CountKnown(s.ix, t); }
    assert TakenOk(s.got, s.ix.cons[t], s.at[t]);
    ConsumeTaken(s.ix, t, s.got, s.at[t]);
    forall u | 0 <= u < |s'.ix.cons| ensures TakenOk(s.got, s'.ix.cons[u], s'.at[u]) {
      if u != t { assert TakenOk(s.got, s.ix.cons[u], s.at[u]); }
    }
  }

  lemma ConsumeKeeps(s: State, t: Tid)
    requires Inv(s) && CanConsume(s, t)
    ensures Inv(Consume(s, t))
  {
    ConsumeAccounts(s, t);
    C.ConsumeKeeps(s.ix, t);
  }

  /** The element a consumer is about to take: published, not taken, alive in its cell. */
  lemma TakeFacts(s: State, t: Tid)
    requires Inv(s) && t < |s.ix.cons| && s.ix.cons[t].AddCount? && s.at[t] < I.BlockEnd(s.ix.cons[t].i, s.ix.cons[t].stop)
    ensures var c, x := s.ix.cons[t], s.at[t];
      && x < s.ix.head && x < |s.built| && x !in s.got && I.Holds(c, x)
      && Lives(s.ix.hist, s.built, s.store, x) && (c.block, x % BLOCK_SIZE) == CellOf(s.ix.hist, x)
  {
    var c, x := s.ix.cons[t], s.at[t];
    ConsumerFacts(s.ix, t);
    assert TakenOk(s.got, c, x);
    assert x / BLOCK_SIZE == c.i / BLOCK_SIZE && x < c.stop;
    assert Lives(s.ix.hist, s.built, s.store, x);
  }

  lemma TakeTaken(ix: I.State, t: Tid, got: map<nat, Value>, at: seq<nat>, v: Value)
    requires I.Inv(ix) && t < |ix.cons| && ix.cons[t].AddCount? && AllTakenOk(got, ix.cons, at)
    requires at[t] < I.BlockEnd(ix.cons[t].i, ix.cons[t].stop) && I.Holds(ix.cons[t], at[t])
    ensures AllTakenOk(got[at[t] := v], ix.cons, at[t := at[t] + 1])
  {
    var x, got', at' := at[t], got[at[t] := v], at[t := at[t] + 1];
    ConsumerFacts(ix, t);
    assert TakenOk(got, ix.cons[t], at[t]);
    forall u | 0 <= u < |ix.cons| ensures TakenOk(got', ix.cons[u], at'[u]) {
      assert TakenOk(got, ix.cons[u], at[u]);
      if u != t {
        ConsumerFacts(ix, u);
        assert !I.Holds(ix.cons[u], x);
      }
    }
  }

  lemma TakeStores(s: State, t: Tid)
    requires Inv(s) && CanTake(s, t)
    ensures s.at[t] < |s.built| && s.at[t] < s.ix.head && I.Holds(s.ix.cons[t], s.at[t])
    ensures var cell := (s.ix.cons[t].block, s.at[t] % BLOCK_SIZE);
      s.store[cell] == s.built[s.at[t]] && Exact(s.ix.hist, s.built, s.got[s.at[t] := s.built[s.at[t]]], s.store - {cell})
  {
    TakeFacts(s, t);
    CellsApart(s.ix, s.got, |s.built|);
    Takes(s.ix.hist, s.built, s.got, s.store, s.at[t]);
  }

  lemma TakeKeeps(s: State, t: Tid)
    requires Inv(s) && CanTake(s, t)
    ensures Inv(Take(s, t))
  {
    TakeStores(s, t);
    TakeTaken(s.ix, t, s.got, s.at, s.built[s.at[t]]);
  }

  lemma NextKeeps(s: State, s': State)
    requires Inv(s) && Next(s, s')
    ensures Inv(s')
  {
    if v :| s.ix.prod == I.Ready && s' == Enqueue(s, v) {
      EnqueueKeeps(s, v);
    } else if ok, b :| CanProduce(s, ok, b) && s' == Produce(s, ok, b) {
      ProduceKeeps(s, ok, b);
    } else if CanConstruct(s) && s' == Construct(s) {
      ConstructKeeps(s);
    } else if t, n: nat :| 0 <= t < |s.ix.cons| && s.ix.cons[t].Idle? && 0 < n && s.ix.head + n <= s.ix.tail
                           && s' == Claim(s, t, n) {
      ClaimKeeps(s, t, n);
    } else if t: nat :| CanConsume(s, t) && s' == Consume(s, t) {
      ConsumeKeeps(s, t);
    } else {
      var t: nat :| CanTake(s, t) && s' == Take(s, t);
      TakeKeeps(s, t);
    }
  }

  // ------------------------------------------------------------- every run

  ghost predicate IsRun(run: seq<State>) {
    && run != [] && Init(run[0])
    && forall i :: 0 <= i < |run| - 1 ==> StepOk(run, i)
  }

  ghost predicate StepOk(run: seq<State>, i: nat)
    requires i < |run| - 1
  {
    I.Shaped(run[i].ix) && Next(run[i], run[i+1])
  }

  ghost predicate Reachable(s: State) {
    exists run :: IsRun(run) && run[|run|-1] == s
  }

  lemma InitInv(s: State)
    requires Init(s)
    ensures Inv(s)
  {
    R.InitInv(s.ix);
  }

  lemma {:induction false} RunInv(run: seq<State>, i: nat)
    requires IsRun(run) && i < |run|
    ensures Inv(run[i])
  {
    if i == 0 {
      InitInv(run[0]);
    } else {
      RunInv(run, i - 1);
      assert StepOk(run, i - 1);
      NextKeeps(run[i-1], run[i]);
    }
  }

  lemma Safety(s: State)
    requires Reachable(s)
    ensures Inv(s)
  {
    var run :| IsRun(run) && run[|run|-1] == s;
    var last := |run| - 1;
    assert run[last] == s;
    RunInv(run, last);
  }

  // ------------------------------------------------------------- what it means

  /** First in, first out by index: what was taken at an index is what was enqueued there. */
  lemma DequeuedIsEnqueued(s: State, x: nat)
    requires Reachable(s) && x in s.got
    ensures x < s.ix.head <= s.ix.tail <= |s.built| && s.got[x] == s.built[x]
  {
    Safety(s);
  }

  /** A counted element has been taken; an enqueued one that has not is alive in its cell. */
  lemma ElementsSurvive(s: State, x: nat)
    requires Reachable(s) && x < s.ix.tail
    ensures x in s.ix.done ==> x in s.got
    ensures x !in s.got ==> Lives(s.ix.hist, s.built, s.store, x)
  {
    Safety(s);
    assert x !in s.got ==> Lives(s.ix.hist, s.built, s.store, x);
  }

  /** No object is leaked: every live object is an element not yet taken, in its own cell. */
  lemma LiveObjects(s: State)
    requires Reachable(s)
    ensures forall c :: c in s.store ==> Housed(s.ix.hist, s.built, s.got, c)
    ensures forall x: nat, y: nat, c :: Tenant(s.ix.hist, s.built, s.got, c, x) && Tenant(s.ix.hist, s.built, s.got, c, y) ==> x == y
  {
    Safety(s);
    CellsApart(s.ix, s.got, |s.built|);
  }

  /** An element is constructed only in raw storage, although its block may have been used before. */
  lemma ConstructsRaw(s: State)
    requires Reachable(s) && CanConstruct(s)
    ensures (s.tailBlock, s.ix.tail % BLOCK_SIZE) !in s.store
  {
    Safety(s);
    ConstructKeeps(s);
  }

  /** A consumer finds a live object with the value enqueued at its index, which no consumer has taken before. */
  lemma TakesLive(s: State, t: Tid)
    requires Reachable(s) && t < |s.ix.cons| && t < |s.at|
    requires s.ix.cons[t].AddCount? && s.at[t] < I.BlockEnd(s.ix.cons[t].i, s.ix.cons[t].stop)
    ensures var cell := (s.ix.cons[t].block, s.at[t] % BLOCK_SIZE);
      && CanTake(s, t) && s.at[t] < |s.built| && s.at[t] !in s.got
      && s.store[cell] == s.built[s.at[t]]
  {
    Safety(s);
    TakeFacts(s, t);
  }

  /** A block goes back to the pool without a live object in it. */
  lemma FreedBlockIsRaw(s: State, t: Tid)
    requires Reachable(s) && t < |s.ix.cons| && s.ix.cons[t].FreeBlock?
    ensures forall c :: c in s.store ==> c.0 != s.ix.cons[t].block
  {
    Safety(s);
    forall c | c in s.store ensures c.0 != s.ix.cons[t].block {
      assert Housed(s.ix.hist, s.built, s.got, c);
      var x: nat :| Tenant(s.ix.hist, s.built, s.got, c, x);
      FreedNotLive(s.ix, t, x);
    }
  }

  lemma FreedNotLive(ix: I.State, t: Tid, x: nat)
    requires I.Inv(ix) && t < |ix.cons| && ix.cons[t].FreeBlock? && x !in ix.done && x / BLOCK_SIZE < |ix.hist|
    ensures ix.hist[x / BLOCK_SIZE] != ix.cons[t].block
  {
    var c := ix.cons[t];
    C.LiveBlock(ix, x);
    assert I.DutyOk(ix.last, ix.nulled, ix.freed, c, t) && I.PlaceOk(ix.headers, ix.cur, ix.hist, ix.keyed, c);
  }

  // ---------------------------------------------------- the caller's argument

  /** Step i of the run is a call of `enqueue` with value v. */
  ghost predicate Calls(run: seq<State>, i: nat, v: Value) {
    i + 1 < |run| && run[i].ix.prod.Ready? && run[i+1] == Enqueue(run[i], v)
  }

  /** The call made at step i has not returned before state j. */
  ghost predicate During(run: seq<State>, i: nat, j: nat) {
    i < j < |run| && forall k :: i < k < j ==> !run[k].ix.prod.Ready?
  }

  /** A call with value v, made when the tail was `tail` and `built` the elements constructed. */
  ghost predicate InCall(s: State, tail: nat, built: seq<Value>, v: Value) {
    && !s.ix.prod.Ready? && s.ix.tail == tail && |built| == tail && s.arg == Some(v)
    && (s.built == built || (s.ix.prod == I.StoreTail && s.built == built + [v]))
  }

  /** The call has returned: with the element published, or with nothing changed. */
  ghost predicate Returned(s: State, tail: nat, built: seq<Value>, v: Value) {
    s.ix.prod.Ready? && ((s.ix.tail == tail + 1 && s.built == built + [v]) || (s.ix.tail == tail && s.built == built))
  }

  lemma CallProduce(s: State, ok: bool, b: Block, tail: nat, built: seq<Value>, v: Value)
    requires Inv(s) && CanProduce(s, ok, b) && InCall(s, tail, built, v)
    ensures InCall(Produce(s, ok, b), tail, built, v) || Returned(Produce(s, ok, b), tail, built, v)
  {
    ProduceFrame(s.ix, ok, b);
  }

  lemma CallStep(s: State, s': State, tail: nat, built: seq<Value>, v: Value)
    requires Inv(s) && Next(s, s') && InCall(s, tail, built, v)
    ensures InCall(s', tail, built, v) || Returned(s', tail, built, v)
  {
    if ok, b :| CanProduce(s, ok, b) && s' == Produce(s, ok, b) {
      CallProduce(s, ok, b, tail, built, v);
    } else if CanConstruct(s) && s' == Construct(s) {
    } else if t, n: nat :| 0 <= t < |s.ix.cons| && s.ix.cons[t].Idle? && 0 < n && s.ix.head + n <= s.ix.tail
                           && s' == Claim(s, t, n) {
    } else if t: nat :| CanConsume(s, t) && s' == Consume(s, t) {
      ConsumeFrame(s.ix, t);
    } else {
      var t: nat :| CanTake(s, t) && s' == Take(s, t);
    }
  }

  lemma BuiltStep(s: State, s': State)
    requires I.Shaped(s.ix) && Next(s, s')
    ensures s'.built == s.built || (|s'.built| == |s.built| + 1 && s'.built[..|s.built|] == s.built)
  {
  }

  lemma CallStarts(run: seq<State>, i: nat, v: Value)
    requires IsRun(run) && Calls(run, i, v)
    ensures |run[i].built| == run[i].ix.tail && InCall(run[i+1], run[i].ix.tail, run[i].built, v)
  {
    RunInv(run, i);
  }

  lemma CallGoesOn(run: seq<State>, j: nat, tail: nat, built: seq<Value>, v: Value)
    requires IsRun(run) && j + 1 < |run| && InCall(run[j], tail, built, v)
    ensures InCall(run[j+1], tail, built, v) || Returned(run[j+1], tail, built, v)
  {
    RunInv(run, j);
    assert StepOk(run, j);
    CallStep(run[j], run[j+1], tail, built, v);
  }

  /** Until it returns, a call has constructed nothing or its argument; then it has published that or changed nothing. */
  lemma {:induction false} CallBuilds(run: seq<State>, i: nat, j: nat, v: Value)
    requires IsRun(run) && Calls(run, i, v) && During(run, i, j)
    ensures InCall(run[j], run[i].ix.tail, run[i].built, v) || Returned(run[j], run[i].ix.tail, run[i].built, v)
    ensures |run[i].built| == run[i].ix.tail
    decreases j
  {
    CallStarts(run, i, v);
    if i + 1 < j {
      CallBuilds(run, i, j - 1, v);
      CallGoesOn(run, j - 1, run[i].ix.tail, run[i].built, v);
    }
  }

  /** The element that a call constructs is its argument, and it constructs no other. */
  lemma ConstructsArgument(run: seq<State>, i: nat, j: nat, v: Value)
    requires IsRun(run) && Calls(run, i, v) && During(run, i, j) && During(run, i, j + 1)
    requires run[j+1].built != run[j].built
    ensures run[j].built == run[i].built && run[j+1].built == run[j].built + [v]
  {
    CallBuilds(run, i, j, v);
    CallBuilds(run, i, j + 1, v);
    assert StepOk(run, j);
    BuiltStep(run[j], run[j+1]);
  }

  lemma {:induction false} BuiltGrows(run: seq<State>, j: nat, k: nat)
    requires IsRun(run) && j <= k < |run|
    ensures |run[j].built| <= |run[k].built| && forall x :: 0 <= x < |run[j].built| ==> run[k].built[x] == run[j].built[x]
  {
    if j < k {
      BuiltGrows(run, j, k - 1);
      assert StepOk(run, k - 1);
      BuiltStep(run[k-1], run[k]);
    }
  }

  /**
   End to end: once a call of `enqueue` with value v has returned true, whoever takes
   the element of its index, however much later, gets v; until then v is alive in
   its cell.
   */
  lemma ArgumentArrives(run: seq<State>, i: nat, j: nat, k: nat, v: Value)
    requires IsRun(run) && Calls(run, i, v) && During(run, i, j) && j <= k < |run|
    requires run[j].ix.prod.Ready? && run[j].ix.tail != run[i].ix.tail
    ensures var x := run[i].ix.tail;
      && x < |run[k].built| && run[k].built[x] == v
      && (x in run[k].got ==> run[k].got[x] == v)
      && (x !in run[k].got ==> Lives(run[k].ix.hist, run[k].built, run[k].store, x))
  {
    CallBuilds(run, i, j, v);
    BuiltGrows(run, j, k);
    RunInv(run, k);
    var x := run[i].ix.tail;
    assert x !in run[k].got ==> Lives(run[k].ix.hist, run[k].built, run[k].store, x);
  }
}
