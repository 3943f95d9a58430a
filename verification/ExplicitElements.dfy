/**
 The explicit producer with its elements: every step of ExplicitIndex, together
 with what it does to the objects in the blocks. The construct step builds the
 value in its cell; a consumer moves each element out of its cell and destroys it
 there before it sets the flag.
 */
module ExplicitElements {
  import opened Common
  import opened Storage
  import E = ExplicitIndex
  import P = ExplicitProducer
  import C = ExplicitConsumer
  import R = ExplicitRuns

  type Tid = nat

  /** `arg` is the value being enqueued; `built` and `got` are history. */
  datatype State = State(ix: E.State, arg: Option<Value>, store: map<Cell, Value>, built: seq<Value>, got: map<nat, Value>)

  // ---------------------------------------------------------------- steps

  ghost function Enqueue(s: State, v: Value): State {
    s.(ix := E.Enqueue(s.ix), arg := Some(v))
  }

  ghost function Produce(s: State, ok: bool, b: Block): State
    requires E.Shaped(s.ix) && R.CanProduce(s.ix, ok, b)
  {
    var ix' := E.Produce(s.ix, ok, b);
    if s.ix.prod.Construct? && s.ix.tailBlock.Some? && s.arg.Some? then
      s.(ix := ix', built := s.built + [s.arg.value],
         store := s.store[(s.ix.tailBlock.value, s.ix.tail % BLOCK_SIZE) := s.arg.value])
    else s.(ix := ix')
  }

  ghost function Claim(s: State, t: Tid, n: nat): State
    requires t < |s.ix.cons|
  {
    s.(ix := E.Claim(s.ix, t, n))
  }

  /** The cell of the element that a consumer takes next. */
  function TakeCell(c: E.Consumer): Cell
    requires c.TakeElement?
  {
    (c.blk, c.i % BLOCK_SIZE)
  }

  /** A consumer can take an element only where there is one. */
  ghost predicate CanConsume(s: State, t: Tid) {
    t < |s.ix.cons| && (s.ix.cons[t].TakeElement? ==> TakeCell(s.ix.cons[t]) in s.store)
  }

  ghost function Consume(s: State, t: Tid): State
    requires E.Shaped(s.ix) && CanConsume(s, t)
  {
    var c, ix' := s.ix.cons[t], E.Consume(s.ix, t);
    if c.TakeElement? then
      s.(ix := ix', got := s.got[c.i := s.store[TakeCell(c)]], store := s.store - {TakeCell(c)})
    else s.(ix := ix')
  }

  ghost predicate Next(s: State, s': State)
    requires E.Shaped(s.ix)
  {
    || (s.ix.prod.Ready? && exists v :: s' == Enqueue(s, v))
    || (exists ok, b :: R.CanProduce(s.ix, ok, b) && s' == Produce(s, ok, b))
    || (exists t, n: nat ::
          0 <= t < |s.ix.cons| && s.ix.cons[t].Idle? && 0 < n && s.ix.head + n <= s.ix.tail && s' == Claim(s, t, n))
    || (exists t: nat :: CanConsume(s, t) && s' == Consume(s, t))
  }

  ghost predicate Init(s: State) {
    R.Init(s.ix) && s.store == map[] && s.built == [] && s.got == map[]
  }

  // ------------------------------------------------------------ invariant

  /** The first index of its range whose element a consumer has not taken. */
  function Ahead(c: E.Consumer): nat {
    match c
    case TakeElement(_, i, _, _, _, _) => i
    case SetEmpty(_, _, end, _, _, _, _) => end
    case _ => E.Begin(c)
  }

  /** A consumer has taken exactly the elements before `Ahead`. */
  ghost predicate TakenOk(got: map<nat, Value>, c: E.Consumer) {
    && (forall x: nat :: E.Holds(c, x) && x < Ahead(c) ==> x in got)
    && (forall x: nat :: Ahead(c) <= x < E.End(c) ==> x !in got)
  }

  ghost predicate AllTakenOk(got: map<nat, Value>, cons: seq<E.Consumer>) {
    forall t {:trigger TakenOk(got, cons[t])} :: 0 <= t < |cons| ==> TakenOk(got, cons[t])
  }

  /** What was taken is what was constructed, and completed elements have been taken. */
  ghost predicate GotOk(done: set<nat>, head: nat, built: seq<Value>, got: map<nat, Value>) {
    && (forall x :: x in done ==> x in got)
    && (forall x :: x in got ==> x < head && x < |built| && got[x] == built[x])
  }

  ghost function Built(p: E.Producer, tail: nat): nat {
    tail + if p.StoreTail? then 1 else 0
  }

  ghost predicate Inv(s: State) {
    && E.Inv(s.ix)
    && (!s.ix.prod.Ready? ==> s.arg.Some?)
    && |s.built| == Built(s.ix.prod, s.ix.tail)
    && GotOk(s.ix.done, s.ix.head, s.built, s.got)
    && AllTakenOk(s.got, s.ix.cons)
    && Exact(s.ix.hist, s.built, s.got, s.store)
  }

  /** Elements not taken are in blocks of the circle, so they have different cells. */
  lemma CellsApart(ix: E.State, got: map<nat, Value>, n: nat)
    requires E.Inv(ix) && forall x :: x in ix.done ==> x in got
    ensures Apart(ix.hist, got, n)
  {
    forall x: nat, y: nat | x < y < n && x !in got && y !in got && y / BLOCK_SIZE < |ix.hist|
      ensures CellOf(ix.hist, x) != CellOf(ix.hist, y)
    {
      assert x !in ix.done && y !in ix.done;
      assert E.Oldest(ix) <= x / BLOCK_SIZE <= y / BLOCK_SIZE;
      if x / BLOCK_SIZE == y / BLOCK_SIZE { assert x % BLOCK_SIZE != y % BLOCK_SIZE; }
    }
  }

  // ---------------------------------------------- what the index run provides

  /** The next element goes into the block in which its index will be found. */
  lemma ConstructFacts(ix: E.State)
    requires E.Inv(ix) && ix.prod.Construct?
    ensures ix.tailBlock.Some? && ix.tail / BLOCK_SIZE < |ix.hist| && ix.head <= ix.tail
    ensures (ix.tailBlock.value, ix.tail % BLOCK_SIZE) == CellOf(ix.hist, ix.tail)
  {
  }

  lemma HeadBound(ix: E.State)
    requires E.Inv(ix)
    ensures ix.head <= ix.tail && forall x :: x in ix.done ==> x < ix.head
  {
  }

  /** Where consumer t stands, and which indices only it holds. */
  lemma ConsumerFacts(ix: E.State, t: Tid)
    requires E.Inv(ix) && t < |ix.cons|
    ensures E.PlaceOk(ix.headers, ix.hist, ix.cons[t]) && E.End(ix.cons[t]) <= ix.head
    ensures forall x: nat :: E.Holds(ix.cons[t], x) ==> x < |ix.holder| && ix.holder[x] == t && x !in ix.done
    ensures forall x: nat :: Ahead(ix.cons[t]) <= x < E.End(ix.cons[t]) ==> E.Holds(ix.cons[t], x)
  {
    assert E.PlaceOk(ix.headers, ix.hist, ix.cons[t]) && E.HoldOk(ix.holder, ix.done, ix.cons[t], t);
  }

  // ------------------------------------------------------- every step keeps it

  /** The new element is built in raw storage. */
  lemma ConstructStores(s: State)
    requires Inv(s) && s.ix.prod.Construct?
    ensures s.arg.Some? && s.ix.tailBlock.Some?
    ensures var cell := (s.ix.tailBlock.value, s.ix.tail % BLOCK_SIZE);
      cell !in s.store && Exact(s.ix.hist, s.built + [s.arg.value], s.got, s.store[cell := s.arg.value])
  {
    ConstructFacts(s.ix);
    CellsApart(s.ix, s.got, |s.built| + 1);
    Constructs(s.ix.hist, s.built, s.got, s.store, s.arg.value);
  }

  lemma ConstructKeeps(s: State, ok: bool, b: Block)
    requires Inv(s) && s.ix.prod.Construct? && R.CanProduce(s.ix, ok, b)
    ensures Inv(Produce(s, ok, b))
  {
    ConstructStores(s);
    P.ProduceKeeps(s.ix, ok, b);
    ProduceFrame(s.ix, ok, b);
  }

  /** What a producer step leaves alone. */
  lemma ProduceFrame(ix: E.State, ok: bool, b: Block)
    requires E.Shaped(ix) && (ix.prod.Grow? ==> (ix.slotsUsed > 0 ==> ix.cur >= 0) && ix.slotsUsed <= ix.size)
    ensures var ix' := E.Produce(ix, ok, b);
      && ix'.done == ix.done && ix'.head == ix.head && ix'.cons == ix.cons
      && (ix'.hist == ix.hist || (|ix'.hist| == |ix.hist| + 1 && ix'.hist == ix.hist + [ix'.hist[|ix.hist|]]))
      && ix'.tail == ix.tail + (if ix.prod.StoreTail? then 1 else 0)
      && (ix'.prod.StoreTail? <==> ix.prod.Construct?)
      && (!ix'.prod.Ready? ==> !ix.prod.Ready?)
  {
    match ix.prod
    case Ready =>
    case CheckEmpty(_) =>
    case LoadHead =>
    case Grow =>
    case Requisition =>
    case StoreBase =>
    case StoreBlock =>
    case StoreFront =>
    case Construct =>
    case StoreTail =>
  }

  lemma ProduceKeeps(s: State, ok: bool, b: Block)
    requires Inv(s) && R.CanProduce(s.ix, ok, b) && !s.ix.prod.Construct?
    ensures Inv(Produce(s, ok, b))
  {
    var ix' := E.Produce(s.ix, ok, b);
    P.ProduceKeeps(s.ix, ok, b);
    ProduceFrame(s.ix, ok, b);
    if ix'.hist != s.ix.hist { Extends(s.ix.hist, s.built, s.got, s.store, ix'.hist[|s.ix.hist|]); }
  }

  lemma ClaimKeeps(s: State, t: Tid, n: nat)
    requires Inv(s) && t < |s.ix.cons| && s.ix.cons[t].Idle? && 0 < n && s.ix.head + n <= s.ix.tail
    ensures Inv(Claim(s, t, n))
  {
    var ix' := E.Claim(s.ix, t, n);
    C.ClaimKeeps(s.ix, t, n);
    forall u | 0 <= u < |ix'.cons| ensures TakenOk(s.got, ix'.cons[u]) {
      if u != t { assert TakenOk(s.got, s.ix.cons[u]); }
    }
  }

  /** What a consumer step leaves alone. */
  lemma ConsumeFrame(ix: E.State, t: Tid)
    requires E.Shaped(ix) && t < |ix.cons|
    ensures var ix' := E.Consume(ix, t);
      && ix'.hist == ix.hist && ix'.head == ix.head && ix'.tail == ix.tail && ix'.prod == ix.prod
      && |ix'.cons| == |ix.cons| && ix'.cons == ix.cons[t := ix'.cons[t]]
      && (ix'.done == ix.done
          || (ix.cons[t].SetEmpty? && ix.cons[t].i > 0 && ix'.done == ix.done + {ix.cons[t].i - 1}))
  {
  }

  /** A consumer that takes nothing keeps its account of what it has taken. */
  lemma OtherStepTaken(ix: E.State, t: Tid, got: map<nat, Value>)
    requires E.Shaped(ix) && t < |ix.cons| && !ix.cons[t].TakeElement? && TakenOk(got, ix.cons[t])
    requires E.PlaceOk(ix.headers, ix.hist, ix.cons[t])
    ensures TakenOk(got, E.Consume(ix, t).cons[t])
    ensures ix.cons[t].SetEmpty? ==> ix.cons[t].i > 0 && ix.cons[t].i - 1 in got
  {
    var c := ix.cons[t];
    if c.SetEmpty? { assert E.Holds(c, c.i - 1); }
  }

  lemma OtherStepAccounts(s: State, t: Tid)
    requires Inv(s) && t < |s.ix.cons| && !s.ix.cons[t].TakeElement?
    ensures var ix' := E.Consume(s.ix, t);
      && ix'.hist == s.ix.hist && Built(ix'.prod, ix'.tail) == Built(s.ix.prod, s.ix.tail)
      && (!ix'.prod.Ready? ==> !s.ix.prod.Ready?)
      && GotOk(ix'.done, ix'.head, s.built, s.got) && AllTakenOk(s.got, ix'.cons)
  {
    var ix' := E.Consume(s.ix, t);
    ConsumeFrame(s.ix, t);
    ConsumerFacts(s.ix, t);
    assert TakenOk(s.got, s.ix.cons[t]);
    OtherStepTaken(s.ix, t, s.got);
    forall u | 0 <= u < |ix'.cons| ensures TakenOk(s.got, ix'.cons[u]) {
      if u != t { assert TakenOk(s.got, s.ix.cons[u]); }
    }
  }

  lemma OtherStepKeeps(s: State, t: Tid)
    requires Inv(s) && t < |s.ix.cons| && !s.ix.cons[t].TakeElement?
    ensures Inv(Consume(s, t))
  {
    OtherStepAccounts(s, t);
    C.ConsumeKeeps(s.ix, t);
  }

  /** The element a consumer is about to take: published, not taken, alive in its cell. */
  lemma TakeFacts(s: State, t: Tid)
    requires Inv(s) && t < |s.ix.cons| && s.ix.cons[t].TakeElement?
    ensures var c := s.ix.cons[t];
      && c.i < s.ix.head && c.i < |s.built| && c.i !in s.got && E.Holds(c, c.i)
      && Lives(s.ix.hist, s.built, s.store, c.i) && TakeCell(c) == CellOf(s.ix.hist, c.i)
  {
    var c := s.ix.cons[t];
    ConsumerFacts(s.ix, t);
    HeadBound(s.ix);
    assert TakenOk(s.got, c) && E.Holds(c, c.i);
    assert Lives(s.ix.hist, s.built, s.store, c.i);
  }

  lemma TakeTaken(ix: E.State, t: Tid, got: map<nat, Value>, v: Value)
    requires E.Inv(ix) && t < |ix.cons| && ix.cons[t].TakeElement? && AllTakenOk(got, ix.cons)
    ensures AllTakenOk(got[ix.cons[t].i := v], ix.cons[t := E.AfterTake(ix.cons[t])])
  {
    var c := ix.cons[t];
    var cons', got' := ix.cons[t := E.AfterTake(c)], got[c.i := v];
    ConsumerFacts(ix, t);
    assert TakenOk(got, c) && E.Holds(c, c.i);
    forall u | 0 <= u < |cons'| ensures TakenOk(got', cons'[u]) {
      if u != t {
        assert TakenOk(got, ix.cons[u]);
        ConsumerFacts(ix, u);
        assert !E.Holds(ix.cons[u], c.i);
      }
    }
  }

  lemma TakeKeeps(s: State, t: Tid)
    requires Inv(s) && t < |s.ix.cons| && s.ix.cons[t].TakeElement?
    ensures CanConsume(s, t) && Inv(Consume(s, t))
  {
    var c := s.ix.cons[t];
    TakeFacts(s, t);
    C.ConsumeKeeps(s.ix, t);
    CellsApart(s.ix, s.got, |s.built|);
    Takes(s.ix.hist, s.built, s.got, s.store, c.i);
    TakeTaken(s.ix, t, s.got, s.built[c.i]);
  }

  lemma EnqueueKeeps(s: State, v: Value)
    requires Inv(s) && s.ix.prod.Ready?
    ensures Inv(Enqueue(s, v))
  {
    P.EnqueueKeeps(s.ix);
  }

  lemma AnyProduceKeeps(s: State, ok: bool, b: Block)
    requires Inv(s) && R.CanProduce(s.ix, ok, b)
    ensures Inv(Produce(s, ok, b))
  {
    if s.ix.prod.Construct? { ConstructKeeps(s, ok, b); } else { ProduceKeeps(s, ok, b); }
  }

  lemma AnyConsumeKeeps(s: State, t: Tid)
    requires Inv(s) && CanConsume(s, t)
    ensures Inv(Consume(s, t))
  {
    if s.ix.cons[t].TakeElement? { TakeKeeps(s, t); } else { OtherStepKeeps(s, t); }
  }

  lemma NextKeeps(s: State, s': State)
    requires Inv(s) && Next(s, s')
    ensures Inv(s')
  {
    if v :| s.ix.prod.Ready? && s' == Enqueue(s, v) {
      EnqueueKeeps(s, v);
    } else if ok, b :| R.CanProduce(s.ix, ok, b) && s' == Produce(s, ok, b) {
      AnyProduceKeeps(s, ok, b);
    } else if t, n: nat :| 0 <= t < |s.ix.cons| && s.ix.cons[t].Idle? && 0 < n && s.ix.head + n <= s.ix.tail
                           && s' == Claim(s, t, n) {
      ClaimKeeps(s, t, n);
    } else {
      var t: nat :| CanConsume(s, t) && s' == Consume(s, t);
      AnyConsumeKeeps(s, t);
    }
  }

  // ------------------------------------------------------------- every run

  ghost predicate IsRun(run: seq<State>) {
    && run != [] && Init(run[0])
    && forall i :: 0 <= i < |run| - 1 ==> StepOk(run, i)
  }

  ghost predicate StepOk(run: seq<State>, i: nat)
    requires i < |run| - 1
  {
    E.Shaped(run[i].ix) && Next(run[i], run[i+1])
  }

  ghost predicate Reachable(s: State) {
    exists run :: IsRun(run) && run[|run|-1] == s
  }

  lemma InitInv(s: State)
    requires Init(s)
    ensures Inv(s)
  {
    R.InitInv(s.ix);
  }

  lemma {:induction false} RunInv(run: seq<State>, i: nat)
    requires IsRun(run) && i < |run|
    ensures Inv(run[i])
  {
    if i == 0 {
      InitInv(run[0]);
    } else {
      RunInv(run, i - 1);
      assert StepOk(run, i - 1);
      NextKeeps(run[i-1], run[i]);
    }
  }

  lemma Safety(s: State)
    requires Reachable(s)
    ensures Inv(s)
  {
    var run :| IsRun(run) && run[|run|-1] == s;
    var last := |run| - 1;
    assert run[last] == s;
    RunInv(run, last);
  }

  // ------------------------------------------------------------- what it means

  /** First in, first out by index: what was taken at an index is what was enqueued there, once it was published and claimed. */
  lemma DequeuedIsEnqueued(s: State, x: nat)
    requires Reachable(s) && x in s.got
    ensures x < s.ix.head <= s.ix.tail <= |s.built| && s.got[x] == s.built[x]
  {
    Safety(s);
    HeadBound(s.ix);
  }

  /** A completed index has given out its value; an enqueued one that has not is alive in its cell. */
  lemma ElementsSurvive(s: State, x: nat)
    requires Reachable(s) && x < s.ix.tail
    ensures x in s.ix.done ==> x in s.got
    ensures x !in s.got ==> Lives(s.ix.hist, s.built, s.store, x)
  {
    Safety(s);
    assert x !in s.got ==> Lives(s.ix.hist, s.built, s.store, x);
  }

  /** No object is leaked or left behind: every live object is an element not yet taken, in its own cell. */
  lemma LiveObjects(s: State)
    requires Reachable(s)
    ensures forall c :: c in s.store ==> Housed(s.ix.hist, s.built, s.got, c)
    ensures forall x: nat, y: nat, c :: Tenant(s.ix.hist, s.built, s.got, c, x) && Tenant(s.ix.hist, s.built, s.got, c, y) ==> x == y
  {
    Safety(s);
    CellsApart(s.ix, s.got, |s.built|);
  }

  /** An element is constructed only in raw storage, despite block reuse. */
  lemma ConstructsRaw(s: State)
    requires Reachable(s) && s.ix.prod.Construct?
    ensures s.ix.tailBlock.Some? && (s.ix.tailBlock.value, s.ix.tail % BLOCK_SIZE) !in s.store
  {
    Safety(s);
    ConstructStores(s);
  }

  /** A consumer finds a live object with the value enqueued at its index, which no consumer has taken before. */
  lemma TakesLive(s: State, t: Tid)
    requires Reachable(s) && t < |s.ix.cons| && s.ix.cons[t].TakeElement?
    ensures var c := s.ix.cons[t];
      c.i < |s.built| && c.i !in s.got && TakeCell(c) in s.store && s.store[TakeCell(c)] == s.built[c.i]
  {
    Safety(s);
    TakeFacts(s, t);
  }

  // ---------------------------------------------------- the caller's argument

  /** Step i of the run is a call of `enqueue` with value v. */
  ghost predicate Calls(run: seq<State>, i: nat, v: Value) {
    i + 1 < |run| && run[i].ix.prod.Ready? && run[i+1] == Enqueue(run[i], v)
  }

  /** The call made at step i has not returned before state j. */
  ghost predicate During(run: seq<State>, i: nat, j: nat) {
    i < j < |run| && forall k :: i < k < j ==> !run[k].ix.prod.Ready?
  }

  /** A call with value v, made when the tail was `tail` and `built` the elements constructed. */
  ghost predicate InCall(s: State, tail: nat, built: seq<Value>, v: Value) {
    && !s.ix.prod.Ready? && s.ix.tail == tail && s.arg == Some(v)
    && s.built == if s.ix.prod.StoreTail? then built + [v] else built
  }

  /** The call has returned: with the element published, or with nothing changed. */
  ghost predicate Returned(s: State, tail: nat, built: seq<Value>, v: Value) {
    s.ix.prod.Ready? && ((s.ix.tail == tail + 1 && s.built == built + [v]) || (s.ix.tail == tail && s.built == built))
  }

  lemma CallProduce(s: State, ok: bool, b: Block, tail: nat, built: seq<Value>, v: Value)
    requires Inv(s) && R.CanProduce(s.ix, ok, b) && InCall(s, tail, built, v)
    ensures InCall(Produce(s, ok, b), tail, built, v) || Returned(Produce(s, ok, b), tail, built, v)
  {
    ProduceFrame(s.ix, ok, b);
  }

  /** Consumers leave the producer and the elements constructed so far alone. */
  ghost predicate Quiet(s: State, s': State) {
    s'.built == s.built && s'.arg == s.arg && s'.ix.prod == s.ix.prod && s'.ix.tail == s.ix.tail
  }

  lemma StepKinds(s: State, s': State)
    requires E.Shaped(s.ix) && Next(s, s')
    ensures
      || (s.ix.prod.Ready? && exists v :: s' == Enqueue(s, v))
      || (exists ok, b :: R.CanProduce(s.ix, ok, b) && s' == Produce(s, ok, b))
      || Quiet(s, s')
  {
    if t: nat :| CanConsume(s, t) && s' == Consume(s, t) { ConsumeFrame(s.ix, t); }
  }

  lemma CallStep(s: State, s': State, tail: nat, built: seq<Value>, v: Value)
    requires Inv(s) && Next(s, s') && InCall(s, tail, built, v)
    ensures InCall(s', tail, built, v) || Returned(s', tail, built, v)
  {
    StepKinds(s, s');
    if ok, b :| R.CanProduce(s.ix, ok, b) && s' == Produce(s, ok, b) {
      CallProduce(s, ok, b, tail, built, v);
    }
  }

  lemma BuiltStep(s: State, s': State)
    requires E.Shaped(s.ix) && Next(s, s')
    ensures s'.built == s.built || (|s'.built| == |s.built| + 1 && s'.built[..|s.built|] == s.built)
  {
    StepKinds(s, s');
    if ok, b :| R.CanProduce(s.ix, ok, b) && s' == Produce(s, ok, b) {
      assert s'.built == s.built || (s.arg.Some? && s'.built == s.built + [s.arg.value]);
    }
  }

  lemma CallStarts(run: seq<State>, i: nat, v: Value)
    requires IsRun(run) && Calls(run, i, v)
    ensures |run[i].built| == run[i].ix.tail && InCall(run[i+1], run[i].ix.tail, run[i].built, v)
  {
    RunInv(run, i);
  }

  lemma CallGoesOn(run: seq<State>, j: nat, tail: nat, built: seq<Value>, v: Value)
    requires IsRun(run) && j + 1 < |run| && InCall(run[j], tail, built, v)
    ensures InCall(run[j+1], tail, built, v) || Returned(run[j+1], tail, built, v)
  {
    RunInv(run, j);
    assert StepOk(run, j);
    CallStep(run[j], run[j+1], tail, built, v);
  }

  /** Until it returns, a call has constructed nothing or its argument; then it has published that or changed nothing. */
  lemma {:induction false} CallBuilds(run: seq<State>, i: nat, j: nat, v: Value)
    requires IsRun(run) && Calls(run, i, v) && During(run, i, j)
    ensures InCall(run[j], run[i].ix.tail, run[i].built, v) || Returned(run[j], run[i].ix.tail, run[i].built, v)
    ensures |run[i].built| == run[i].ix.tail
    decreases j
  {
    CallStarts(run, i, v);
    if i + 1 < j {
      CallBuilds(run, i, j - 1, v);
      CallGoesOn(run, j - 1, run[i].ix.tail, run[i].built, v);
    }
  }

  /** The element that a call constructs is its argument, and it constructs no other. */
  lemma ConstructsArgument(run: seq<State>, i: nat, j: nat, v: Value)
    requires IsRun(run) && Calls(run, i, v) && During(run, i, j) && During(run, i, j + 1)
    requires run[j+1].built != run[j].built
    ensures run[j].built == run[i].built && run[j+1].built == run[j].built + [v]
  {
    CallBuilds(run, i, j, v);
    CallBuilds(run, i, j + 1, v);
    assert StepOk(run, j);
    BuiltStep(run[j], run[j+1]);
  }

  lemma {:induction false} BuiltGrows(run: seq<State>, j: nat, k: nat)
    requires IsRun(run) && j <= k < |run|
    ensures |run[j].built| <= |run[k].built| && forall x :: 0 <= x < |run[j].built| ==> run[k].built[x] == run[j].built[x]
  {
    if j < k {
      BuiltGrows(run, j, k - 1);
      assert StepOk(run, k - 1);
      BuiltStep(run[k-1], run[k]);
    }
  }

  /**
   End to end: once a call of `enqueue` with value v has returned true, whoever takes
   the element of its index, however much later, gets v; until then v is alive in
   its cell.
   */
  lemma ArgumentArrives(run: seq<State>, i: nat, j: nat, k: nat, v: Value)
    requires IsRun(run) && Calls(run, i, v) && During(run, i, j) && j <= k < |run|
    requires run[j].ix.prod.Ready? && run[j].ix.tail != run[i].ix.tail
    ensures var x := run[i].ix.tail;
      && x < |run[k].built| && run[k].built[x] == v
      && (x in run[k].got ==> run[k].got[x] == v)
      && (x !in run[k].got ==> Lives(run[k].ix.hist, run[k].built, run[k].store, x))
  {
    CallBuilds(run, i, j, v);
    BuiltGrows(run, j, k);
    RunInv(run, k);
    var x := run[i].ix.tail;
    assert x !in run[k].got ==> Lives(run[k].ix.hist, run[k].built, run[k].store, x);
  }

  ghost function Indexes(run: seq<State>): seq<E.State> {
    seq(|run|, (i: int) requires 0 <= i < |run| => run[i].ix)
  }

  lemma NextProjects(s: State, s': State)
    requires E.Shaped(s.ix) && Next(s, s')
    ensures R.Next(s.ix, s'.ix)
  {
    if ok, b :| R.CanProduce(s.ix, ok, b) && s' == Produce(s, ok, b) {
      assert s'.ix == E.Produce(s.ix, ok, b);
    }
  }

  /** The index component of a run is a run of the index model, so its theorems hold here. */
  lemma IndexReachable(s: State)
    requires Reachable(s)
    ensures R.Reachable(s.ix)
  {
    var run :| IsRun(run) && run[|run|-1] == s;
    var ixs := Indexes(run);
    forall i | 0 <= i < |ixs| - 1 ensures R.StepOk(ixs, i) {
      assert StepOk(run, i);
      NextProjects(run[i], run[i+1]);
    }
    assert R.IsRun(ixs) && ixs[|ixs|-1] == s.ix;
  }
}
