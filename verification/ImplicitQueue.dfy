/**
 A whole sub-queue of an implicit producer: the claim protocol of module Claim in
 place of the single claim step, on top of module ImplicitElements.
 */
module ImplicitQueue {
  import Claim
  import I = ImplicitIndex
  import X = ImplicitElements
  import opened Storage

  type Tid = nat

  datatype State = State(claims: Claim.State, el: X.State)

  // ---------------------------------------------------------------- steps

  /** A producer step; storing the tail is the publication that consumers see. */
  ghost function Produce(q: State, ok: bool, b: Block): State
    requires I.Shaped(q.el.ix)
  {
    State(if q.el.ix.prod == I.StoreTail then Claim.Publish(q.claims, 1) else q.claims, X.Produce(q.el, ok, b))
  }

  /** A step of the claim protocol; the fetch-and-add on the head index hands out the range. */
  ghost function ClaimStep(q: State, t: Tid): State
    requires t < |q.claims.pcs| && t < |q.el.ix.cons|
  {
    State(Claim.Advance(q.claims, t),
          if q.claims.pcs[t].ClaimHead? then X.Claim(q.el, t, q.claims.pcs[t].actual) else q.el)
  }

  ghost predicate Next(q: State, q': State)
    requires I.Shaped(q.el.ix)
  {
    || (q.el.ix.prod == I.Ready && exists v :: q' == q.(el := X.Enqueue(q.el, v)))
    || (exists ok, b :: X.CanProduce(q.el, ok, b) && q' == Produce(q, ok, b))
    || (X.CanConstruct(q.el) && q' == q.(el := X.Construct(q.el)))
    || (exists t: nat, max: nat :: CanStart(q, t, max) && q' == q.(claims := Claim.Begin(q.claims, t, max)))
    || (exists t: nat :: t < |q.claims.pcs| && t < |q.el.ix.cons| && q' == ClaimStep(q, t))
    || (exists t: nat :: X.CanConsume(q.el, t) && q' == q.(el := X.Consume(q.el, t)))
    || (exists t: nat :: X.CanTake(q.el, t) && q' == q.(el := X.Take(q.el, t)))
  }

  /** A consumer with nothing left to do starts a dequeue of up to `max` elements. */
  ghost predicate CanStart(q: State, t: Tid, max: nat) {
    && t < |q.claims.pcs| && t < |q.el.ix.cons| && max > 0
    && q.claims.pcs[t].Idle? && q.el.ix.cons[t].Idle?
  }

  ghost predicate Init(q: State) {
    Claim.Init(q.claims) && X.Init(q.el) && |q.claims.pcs| == |q.el.ix.cons|
  }

  // ------------------------------------------------------------ invariant

  /** A consumer is in the protocol or in the blocks, not in both. */
  ghost predicate PhaseOk(p: Claim.Pc, c: I.Consumer) {
    Claim.Positive(p) && (p.Idle? || c.Idle?)
  }

  ghost predicate PhasesOk(pcs: seq<Claim.Pc>, cons: seq<I.Consumer>) {
    |pcs| == |cons| && forall t {:trigger PhaseOk(pcs[t], cons[t])} :: 0 <= t < |pcs| ==> PhaseOk(pcs[t], cons[t])
  }

  ghost predicate Inv(q: State) {
    && Claim.Inv(q.claims) && X.Inv(q.el)
    && q.claims.tail == q.el.ix.tail && q.claims.head == q.el.ix.head
    && PhasesOk(q.claims.pcs, q.el.ix.cons)
  }

  /** What the protocol approved is a legal claim: the consumer is free, and the range is below the tail. */
  lemma ClaimFits(q: State, t: Tid)
    requires Inv(q) && t < |q.claims.pcs| && q.claims.pcs[t].ClaimHead?
    ensures q.el.ix.cons[t].Idle? && 0 < q.claims.pcs[t].actual && q.el.ix.head + q.claims.pcs[t].actual <= q.el.ix.tail
  {
    assert PhaseOk(q.claims.pcs[t], q.el.ix.cons[t]);
    Claim.HeadFits(q.claims);
  }

  // ------------------------------------------------------- every step keeps it

  lemma ProduceKeeps(q: State, ok: bool, b: Block)
    requires Inv(q) && X.CanProduce(q.el, ok, b)
    ensures Inv(Produce(q, ok, b))
  {
    X.ProduceKeeps(q.el, ok, b);
    X.ProduceFrame(q.el.ix, ok, b);
    Claim.PublishKeeps(q.claims, 1);
  }

  lemma PhaseMoved(pcs: seq<Claim.Pc>, cons: seq<I.Consumer>, t: Tid, p: Claim.Pc, c: I.Consumer)
    requires PhasesOk(pcs, cons) && t < |pcs| && PhaseOk(p, c)
    ensures PhasesOk(pcs[t := p], cons[t := c])
  {
    var pcs', cons' := pcs[t := p], cons[t := c];
    forall u | 0 <= u < |pcs| ensures PhaseOk(pcs'[u], cons'[u]) {
      if u != t { assert PhaseOk(pcs[u], cons[u]); }
    }
  }

  lemma ClaimStepKeeps(q: State, t: Tid)
    requires Inv(q) && t < |q.claims.pcs|
    ensures Inv(ClaimStep(q, t))
  {
    var p, p' := q.claims.pcs[t], Claim.Advance(q.claims, t).pcs[t];
    Claim.AdvanceKeeps(q.claims, t);
    Claim.AdvanceFrame(q.claims, t);
    assert PhaseOk(p, q.el.ix.cons[t]);
    Claim.PositiveKeeps(q.claims, t);
    if p.ClaimHead? {
      ClaimFits(q, t);
      X.ClaimKeeps(q.el, t, p.actual);
      PhaseMoved(q.claims.pcs, q.el.ix.cons, t, p', I.LoadIndex(q.el.ix.head, q.el.ix.head + p.actual));
    } else if !p.Idle? {
      PhaseMoved(q.claims.pcs, q.el.ix.cons, t, p', q.el.ix.cons[t]);
      assert q.el.ix.cons[t := q.el.ix.cons[t]] == q.el.ix.cons;
    }
  }

  lemma StartKeeps(q: State, t: Tid, max: nat)
    requires Inv(q) && CanStart(q, t, max)
    ensures Inv(q.(claims := Claim.Begin(q.claims, t, max)))
  {
    Claim.BeginKeeps(q.claims, t, max);
    PhaseMoved(q.claims.pcs, q.el.ix.cons, t, Claim.LoadOvercommit(max, q.claims.tail), q.el.ix.cons[t]);
    assert q.el.ix.cons[t := q.el.ix.cons[t]] == q.el.ix.cons;
  }

  lemma ConsumeKeeps(q: State, t: Tid)
    requires Inv(q) && X.CanConsume(q.el, t)
    ensures Inv(q.(el := X.Consume(q.el, t)))
  {
    var c' := I.Consume(q.el.ix, t).cons[t];
    X.ConsumeKeeps(q.el, t);
    X.ConsumeFrame(q.el.ix, t);
    assert PhaseOk(q.claims.pcs[t], q.el.ix.cons[t]);
    if q.el.ix.cons[t].Idle? {
      assert I.Consume(q.el.ix, t) == q.el.ix;
    } else {
      PhaseMoved(q.claims.pcs, q.el.ix.cons, t, q.claims.pcs[t], c');
      assert q.claims.pcs[t := q.claims.pcs[t]] == q.claims.pcs;
    }
  }

  lemma NextKeeps(q: State, q': State)
    requires Inv(q) && Next(q, q')
    ensures Inv(q')
  {
    if v :| q.el.ix.prod == I.Ready && q' == q.(el := X.Enqueue(q.el, v)) {
      X.EnqueueKeeps(q.el, v);
    } else if ok, b :| X.CanProduce(q.el, ok, b) && q' == Produce(q, ok, b) {
      ProduceKeeps(q, ok, b);
    } else if X.CanConstruct(q.el) && q' == q.(el := X.Construct(q.el)) {
      X.ConstructKeeps(q.el);
    } else if t: nat, max: nat :| CanStart(q, t, max) && q' == q.(claims := Claim.Begin(q.claims, t, max)) {
      StartKeeps(q, t, max);
    } else if t: nat :| t < |q.claims.pcs| && t < |q.el.ix.cons| && q' == ClaimStep(q, t) {
      ClaimStepKeeps(q, t);
    } else if t: nat :| X.CanConsume(q.el, t) && q' == q.(el := X.Consume(q.el, t)) {
      ConsumeKeeps(q, t);
    } else {
      var t: nat :| X.CanTake(q.el, t) && q' == q.(el := X.Take(q.el, t));
      X.TakeKeeps(q.el, t);
    }
  }

  // ------------------------------------------------------------- every run

  ghost predicate IsRun(run: seq<State>) {
    && run != [] && Init(run[0])
    && forall i :: 0 <= i < |run| - 1 ==> StepOk(run, i)
  }

  ghost predicate StepOk(run: seq<State>, i: nat)
    requires i < |run| - 1
  {
    I.Shaped(run[i].el.ix) && Next(run[i], run[i+1])
  }

  ghost predicate Reachable(q: State) {
    exists run :: IsRun(run) && run[|run|-1] == q
  }

  lemma InitInv(q: State)
    requires Init(q)
    ensures Inv(q)
  {
    Claim.InitInv(q.claims);
    X.InitInv(q.el);
  }

  lemma {:induction false} RunInv(run: seq<State>, i: nat)
    requires IsRun(run) && i < |run|
    ensures Inv(run[i])
  {
    if i == 0 {
      InitInv(run[0]);
    } else {
      RunInv(run, i - 1);
      assert StepOk(run, i - 1);
      NextKeeps(run[i-1], run[i]);
    }
  }

  lemma Safety(q: State)
    requires Reachable(q)
    ensures Inv(q)
  {
    var run :| IsRun(run) && run[|run|-1] == q;
    var last := |run| - 1;
    assert run[last] == q;
    RunInv(run, last);
  }

  // ------------------------------------------------------------- what it means

  /** Every fetch-and-add on the head index that the protocol allows is a legal claim of the index model. */
  lemma ClaimIsLegal(q: State, t: Tid)
    requires Reachable(q) && I.Shaped(q.el.ix) && t < |q.claims.pcs| && q.claims.pcs[t].ClaimHead?
    ensures t < |q.el.ix.cons| && X.Next(q.el, X.Claim(q.el, t, q.claims.pcs[t].actual))
    ensures Claim.Next(q.claims, Claim.Advance(q.claims, t))
  {
    Safety(q);
    ClaimFits(q, t);
  }

  /** The whole dequeue path: counters agree, no index is claimed past the tail, and what was taken is what was enqueued. */
  lemma WholeQueue(q: State, x: nat)
    requires Reachable(q)
    ensures q.claims.head == q.el.ix.head <= q.el.ix.tail == q.claims.tail
    ensures x in q.el.got ==> x < q.el.ix.head && x < |q.el.built| && q.el.got[x] == q.el.built[x]
    ensures x < q.el.ix.tail && x !in q.el.got ==> Lives(q.el.ix.hist, q.el.built, q.el.store, x)
  {
    Safety(q);
    Claim.HeadFits(q.claims);
    assert x < |q.el.built| && x !in q.el.got ==> Lives(q.el.ix.hist, q.el.built, q.el.store, x);
  }

  /** A step of the whole queue is a step of the claim protocol; publishing nothing stands for a step elsewhere. */
  lemma ClaimNext(q: State, q': State)
    requires I.Shaped(q.el.ix) && Next(q, q')
    ensures Claim.Next(q.claims, q'.claims)
  {
    assert Claim.Publish(q.claims, 0) == q.claims;
    if ok, b :| X.CanProduce(q.el, ok, b) && q' == Produce(q, ok, b) {
      assert q'.claims == q.claims || q'.claims == Claim.Publish(q.claims, 1);
    } else if t: nat :| t < |q.claims.pcs| && t < |q.el.ix.cons| && q' == ClaimStep(q, t) {
      assert q'.claims == Claim.Advance(q.claims, t);
    } else if t: nat, max: nat :| CanStart(q, t, max) && q' == q.(claims := Claim.Begin(q.claims, t, max)) {
    } else {
      assert q'.claims == q.claims;
    }
  }

  ghost function ClaimsOf(run: seq<State>): seq<Claim.State> {
    seq(|run|, (i: int) requires 0 <= i < |run| => run[i].claims)
  }

  /** The counters of a run are a run of the claim protocol, so what a dequeue returns is as module Claim says. */
  lemma ClaimRun(run: seq<State>)
    requires IsRun(run)
    ensures Claim.IsRun(ClaimsOf(run))
  {
    var cs := ClaimsOf(run);
    forall i | 0 <= i < |cs| - 1 ensures Claim.StepOk(cs, i) {
      assert StepOk(run, i);
      ClaimNext(run[i], run[i+1]);
    }
  }

  // ---------------------------------------------------- the caller's argument

  /** A step of the whole queue is a step of its elements or leaves them alone. */
  lemma ElementStep(q: State, q': State)
    requires Inv(q) && Next(q, q')
    ensures X.Next(q.el, q'.el) || q'.el == q.el
  {
    if ok, b :| X.CanProduce(q.el, ok, b) && q' == Produce(q, ok, b) {
    } else if t: nat :| t < |q.claims.pcs| && t < |q.el.ix.cons| && q' == ClaimStep(q, t) {
      if q.claims.pcs[t].ClaimHead? { ClaimFits(q, t); }
    }
  }

  /** Step i of the run is a call of `enqueue` with value v. */
  ghost predicate Calls(run: seq<State>, i: nat, v: Value) {
    i + 1 < |run| && run[i].el.ix.prod.Ready? && run[i+1] == run[i].(el := X.Enqueue(run[i].el, v))
  }

  /** The call made at step i has not returned before state j. */
  ghost predicate During(run: seq<State>, i: nat, j: nat) {
    i < j < |run| && forall k :: i < k < j ==> !run[k].el.ix.prod.Ready?
  }

  lemma CallStarts(run: seq<State>, i: nat, v: Value)
    requires IsRun(run) && Calls(run, i, v)
    ensures |run[i].el.built| == run[i].el.ix.tail && X.InCall(run[i+1].el, run[i].el.ix.tail, run[i].el.built, v)
  {
    RunInv(run, i);
  }

  lemma CallStep(run: seq<State>, j: nat, tail: nat, built: seq<Value>, v: Value)
    requires IsRun(run) && j + 1 < |run| && X.InCall(run[j].el, tail, built, v)
    ensures X.InCall(run[j+1].el, tail, built, v) || X.Returned(run[j+1].el, tail, built, v)
  {
    RunInv(run, j);
    assert StepOk(run, j);
    ElementStep(run[j], run[j+1]);
    if run[j+1].el != run[j].el { X.CallStep(run[j].el, run[j+1].el, tail, built, v); }
  }

  lemma {:induction false} CallBuilds(run: seq<State>, i: nat, j: nat, v: Value)
    requires IsRun(run) && Calls(run, i, v) && During(run, i, j)
    ensures X.InCall(run[j].el, run[i].el.ix.tail, run[i].el.built, v) || X.Returned(run[j].el, run[i].el.ix.tail, run[i].el.built, v)
    ensures |run[i].el.built| == run[i].el.ix.tail
    decreases j
  {
    CallStarts(run, i, v);
    if i + 1 < j {
      CallBuilds(run, i, j - 1, v);
      CallStep(run, j - 1, run[i].el.ix.tail, run[i].el.built, v);
    }
  }

  lemma BuiltStep(run: seq<State>, k: nat)
    requires IsRun(run) && k + 1 < |run|
    ensures |run[k].el.built| <= |run[k+1].el.built|
    ensures forall x :: 0 <= x < |run[k].el.built| ==> run[k+1].el.built[x] == run[k].el.built[x]
  {
    RunInv(run, k);
    assert StepOk(run, k);
    ElementStep(run[k], run[k+1]);
    if run[k+1].el != run[k].el { X.BuiltStep(run[k].el, run[k+1].el); }
  }

  lemma {:induction false} BuiltGrows(run: seq<State>, j: nat, k: nat)
    requires IsRun(run) && j <= k < |run|
    ensures |run[j].el.built| <= |run[k].el.built|
    ensures forall x :: 0 <= x < |run[j].el.built| ==> run[k].el.built[x] == run[j].el.built[x]
  {
    if j < k {
      BuiltGrows(run, j, k - 1);
      BuiltStep(run, k - 1);
    }
  }

  /**
   The whole path of a value: once a call of `enqueue` with value v has returned
   true, the consumer that claims its index gets v, however the claims, block
   recycling and index growth of other threads are interleaved; until then v is
   alive in its cell.
   */
  lemma ArgumentArrives(run: seq<State>, i: nat, j: nat, k: nat, v: Value)
    requires IsRun(run) && Calls(run, i, v) && During(run, i, j) && j <= k < |run|
    requires run[j].el.ix.prod.Ready? && run[j].el.ix.tail != run[i].el.ix.tail
    ensures var x, el := run[i].el.ix.tail, run[k].el;
      && x < |el.built| && el.built[x] == v
      && (x in el.got ==> el.got[x] == v)
      && (x !in el.got ==> Lives(el.ix.hist, el.built, el.store, x))
  {
    CallBuilds(run, i, j, v);
    BuiltGrows(run, j, k);
    RunInv(run, k);
    var x, el := run[i].el.ix.tail, run[k].el;
    assert x !in el.got ==> Lives(el.ix.hist, el.built, el.store, x);
  }
}
