/**
 How consumers claim indices of one producer's sub-queue: the optimistic count,
 the overcommit correction and the head index (`dequeue` and `dequeue_bulk` of
 both producer kinds). Counters are unbounded here; module Wrap relates them to
 machine words. One step is one atomic operation of one thread.

 `log` and `claims` are history variables: `log` tells, for every unit ever
 added to the optimistic count, what became of it; `claims` lists the ranges
 handed out by the fetch-and-add on the head index.
 */
module Claim {
  import opened Common

  type Tid = nat

  datatype Unit = Pending(who: Tid) | Taken | Returned

  datatype Range = Range(who: Tid, first: nat, count: nat)

  /** The next atomic operation of a consumer. A `dequeue` asks for max == 1. */
  datatype Pc =
    | Idle
    | LoadOvercommit(max: nat, tail: nat)
    | LoadOptimistic(max: nat, tail: nat, over: nat)
    | Reserve(desired: nat, over: nat)
    | ReloadTail(desired: nat, over: nat, mine: nat)
    | GiveBack(desired: nat, mine: nat, actual: nat, claiming: bool)
    | ClaimHead(mine: nat, actual: nat)

  datatype State = State(
    tail: nat,
    head: nat,
    optimistic: nat,
    overcommit: nat,
    pcs: seq<Pc>,
    log: seq<Unit>,
    claims: seq<Range>)

  // ---------------------------------------------------------------- steps

  function Min(a: int, b: int): int {
    if a < b then a else b
  }

  /** The units [a, b) of the log get the outcome u. */
  ghost function Mark(log: seq<Unit>, a: nat, b: nat, u: Unit): seq<Unit> {
    seq(|log|, i requires 0 <= i < |log| => if a <= i < b then u else log[i])
  }

  ghost function Advance(s: State, t: Tid): State
    requires t < |s.pcs|
  {
    match s.pcs[t]
    case Idle => s
    case LoadOvercommit(max, tail) =>
      s.(pcs := s.pcs[t := LoadOptimistic(max, tail, s.overcommit)])
    case LoadOptimistic(max, tail, over) =>
      var desired := tail - (s.optimistic - over);
      s.(pcs := s.pcs[t := if 0 < desired then Reserve(Min(desired, max), over) else Idle])
    case Reserve(desired, over) =>
      s.(optimistic := s.optimistic + desired,
         pcs := s.pcs[t := ReloadTail(desired, over, s.optimistic)],
         log := s.log + seq(desired, _ => Pending(t)))
    case ReloadTail(desired, over, mine) =>
      var actual := s.tail - (mine - over);
      if 0 < actual then
        var count := Min(desired, actual);
        s.(pcs := s.pcs[t := if count < desired then GiveBack(desired, mine, count, true) else ClaimHead(mine, count)],
           log := Mark(s.log, mine, mine + count, Taken))
      else
        s.(pcs := s.pcs[t := GiveBack(desired, mine, 0, false)])
    case GiveBack(desired, mine, actual, claiming) =>
      s.(overcommit := s.overcommit + if actual <= desired then desired - actual else 0,
         pcs := s.pcs[t := if claiming then ClaimHead(mine, actual) else Idle],
         log := Mark(s.log, mine + actual, mine + desired, Returned))
    case ClaimHead(_, actual) =>
      s.(head := s.head + actual, pcs := s.pcs[t := Idle],
         claims := s.claims + [Range(t, s.head, actual)])
  }

  /** The first load of a dequeue by an idle consumer. */
  ghost function Begin(s: State, t: Tid, max: nat): State
    requires t < |s.pcs|
  {
    s.(pcs := s.pcs[t := LoadOvercommit(max, s.tail)])
  }

  /** The producer publishes n more elements. */
  ghost function Publish(s: State, n: nat): State {
    s.(tail := s.tail + n)
  }

  ghost predicate Next(s: State, s': State) {
    || (exists t :: 0 <= t < |s.pcs| && s' == Advance(s, t))
    || (exists t, max: nat :: 0 <= t < |s.pcs| && s.pcs[t].Idle? && s' == Begin(s, t, max))
    || (exists n: nat :: s' == Publish(s, n))
  }

  ghost predicate Init(s: State) {
    && s.tail == s.head == s.optimistic == s.overcommit == 0
    && s.log == [] && s.claims == []
    && forall t :: 0 <= t < |s.pcs| ==> s.pcs[t] == Idle
  }

  // ------------------------------------------------------------ invariant

  ghost function Count(log: seq<Unit>, n: nat, u: Unit): nat
    requires n <= |log|
  {
    if n == 0 then 0 else Count(log, n - 1, u) + (if log[n-1] == u then 1 else 0)
  }

  /** Units a consumer has added to the optimistic count and not yet settled. */
  function InFlight(p: Pc): nat {
    match p
    case ReloadTail(desired, _, _) => desired
    case GiveBack(desired, _, _, _) => desired
    case ClaimHead(_, actual) => actual
    case _ => 0
  }

  /** Units a consumer may still add to the head index. */
  function Approved(p: Pc): nat {
    match p
    case GiveBack(_, _, actual, _) => actual
    case ClaimHead(_, actual) => actual
    case _ => 0
  }

  function InFlights(pcs: seq<Pc>): seq<nat> {
    seq(|pcs|, i requires 0 <= i < |pcs| => InFlight(pcs[i]))
  }

  function Approveds(pcs: seq<Pc>): seq<nat> {
    seq(|pcs|, i requires 0 <= i < |pcs| => Approved(pcs[i]))
  }

  ghost predicate All(log: seq<Unit>, a: nat, b: nat, u: Unit) {
    b <= |log| && forall i :: a <= i < b ==> log[i] == u
  }

  ghost predicate ThreadOk(s: State, t: Tid)
    requires t < |s.pcs|
  {
    match s.pcs[t]
    case LoadOptimistic(_, _, over) => over <= s.overcommit
    case Reserve(_, over) => over <= s.overcommit
    case ReloadTail(desired, over, mine) =>
      && All(s.log, mine, mine + desired, Pending(t))
      && over <= Count(s.log, mine, Returned)
    case GiveBack(desired, mine, actual, claiming) =>
      && actual <= desired && (!claiming ==> actual == 0)
      && All(s.log, mine + actual, mine + desired, Pending(t))
    case _ => true
  }

  /** If unit k - 1 was taken, index k minus the returned units before it is covered by the tail. */
  ghost predicate Covered(log: seq<Unit>, k: nat, tail: nat)
    requires 0 < k <= |log|
  {
    log[k-1] == Taken ==> k - Count(log, k, Returned) <= tail
  }

  /** The claimed ranges follow one another without a gap, up to `head`. */
  ghost predicate Tiled(claims: seq<Range>, head: nat) {
    && (claims != [] ==> claims[0].first == 0)
    && (forall j :: 0 <= j < |claims| - 1 ==> claims[j+1].first == claims[j].first + claims[j].count)
    && head == if claims == [] then 0 else claims[|claims|-1].first + claims[|claims|-1].count
  }

  ghost predicate Inv(s: State) {
    && s.optimistic == |s.log|
    && s.overcommit == Count(s.log, |s.log|, Returned)
    && s.optimistic == s.head + s.overcommit + Sum(InFlights(s.pcs))
    && Count(s.log, |s.log|, Taken) == s.head + Sum(Approveds(s.pcs))
    && (forall t :: 0 <= t < |s.pcs| ==> ThreadOk(s, t))
    && (forall k :: 0 < k <= |s.log| ==> Covered(s.log, k, s.tail))
    && Tiled(s.claims, s.head)
  }

  // ------------------------------------------------------------- counting

  lemma {:induction false} CountPrefix(a: seq<Unit>, b: seq<Unit>, n: nat, u: Unit)
    requires n <= |a| && n <= |b| && forall i :: 0 <= i < n ==> (a[i] == u <==> b[i] == u)
    ensures Count(a, n, u) == Count(b, n, u)
  {
    if n > 0 { CountPrefix(a, b, n - 1, u); }
  }

  lemma {:induction false} CountGrows(a: seq<Unit>, b: seq<Unit>, n: nat, u: Unit)
    requires n <= |a| && n <= |b| && forall i :: 0 <= i < n && a[i] == u ==> b[i] == u
    ensures Count(a, n, u) <= Count(b, n, u)
  {
    if n > 0 { CountGrows(a, b, n - 1, u); }
  }

  lemma {:induction false} CountUpTo(log: seq<Unit>, m: nat, n: nat, u: Unit)
    requires m <= n <= |log|
    ensures Count(log, m, u) <= Count(log, n, u) <= Count(log, m, u) + n - m
  {
    if m < n { CountUpTo(log, m, n - 1, u); }
  }

  lemma {:induction false} CountTwo(log: seq<Unit>, n: nat)
    requires n <= |log|
    ensures Count(log, n, Taken) + Count(log, n, Returned) <= n
  {
    if n > 0 { CountTwo(log, n - 1); }
  }

  lemma {:induction false} CountMark(log: seq<Unit>, a: nat, b: nat, u: Unit, t: Tid, n: nat)
    requires a <= b && All(log, a, b, Pending(t)) && !u.Pending? && n <= |log|
    ensures Count(Mark(log, a, b, u), n, u) ==
      Count(log, n, u) + (if n <= a then 0 else if n <= b then n - a else b - a)
    ensures forall v :: v != u && !v.Pending? ==> Count(Mark(log, a, b, u), n, v) == Count(log, n, v)
  {
    if n > 0 { CountMark(log, a, b, u, t, n - 1); }
  }

  /** The heart of the protocol: no more units are taken than the tail allows. */
  lemma {:induction false} TakenBound(log: seq<Unit>, n: nat, tail: nat)
    requires n <= |log| && forall k :: 0 < k <= n ==> Covered(log, k, tail)
    ensures Count(log, n, Taken) <= tail
  {
    if n > 0 {
      if log[n-1] == Taken {
        assert Covered(log, n, tail);
        CountTwo(log, n);
      } else {
        TakenBound(log, n - 1, tail);
      }
    }
  }

  lemma PcsUpdate(s: State, t: Tid, p: Pc)
    requires t < |s.pcs|
    ensures Sum(InFlights(s.pcs[t := p])) == Sum(InFlights(s.pcs)) - InFlight(s.pcs[t]) + InFlight(p)
    ensures Sum(Approveds(s.pcs[t := p])) == Sum(Approveds(s.pcs)) - Approved(s.pcs[t]) + Approved(p)
  {
    assert InFlights(s.pcs[t := p]) == InFlights(s.pcs)[t := InFlight(p)];
    assert Approveds(s.pcs[t := p]) == Approveds(s.pcs)[t := Approved(p)];
    SumUpdate(InFlights(s.pcs), t, InFlight(p));
    SumUpdate(Approveds(s.pcs), t, Approved(p));
  }

  // ---------------------------------------------------- every step keeps Inv

  /** Another thread's facts survive: only Pending(t) units change, counts only grow. */
  lemma OthersKeep(s: State, s': State, t: Tid, u: Tid)
    requires t != u && u < |s.pcs| == |s'.pcs| && s'.pcs[u] == s.pcs[u] && ThreadOk(s, u)
    requires s.overcommit <= s'.overcommit && |s.log| <= |s'.log|
    requires forall i :: 0 <= i < |s.log| ==>
      s'.log[i] == s.log[i] || s.log[i] == Pending(t)
    ensures ThreadOk(s', u)
  {
    if s.pcs[u].ReloadTail? {
      CountGrows(s.log, s'.log, s.pcs[u].mine, Returned);
    }
  }

  lemma CoverKeeps(log: seq<Unit>, log': seq<Unit>, k: nat, tail: nat)
    requires 0 < k <= |log| <= |log'| && Covered(log, k, tail)
    requires forall i :: 0 <= i < |log| && log[i] == Returned ==> log'[i] == Returned
    requires log'[k-1] == Taken ==> log[k-1] == Taken
    ensures Covered(log', k, tail)
  {
    CountGrows(log, log', k, Returned);
  }

  lemma LoadKeeps(s: State, t: Tid)
    requires Inv(s) && t < |s.pcs|
    requires s.pcs[t].Idle? || s.pcs[t].LoadOvercommit? || s.pcs[t].LoadOptimistic?
    ensures Inv(Advance(s, t))
  {
    var s' := Advance(s, t);
    assert ThreadOk(s, t);
    PcsUpdate(s, t, s'.pcs[t]);
    assert s'.pcs == s.pcs[t := s'.pcs[t]];
    forall u | 0 <= u < |s.pcs| ensures ThreadOk(s', u) {
      assert ThreadOk(s, u);
    }
  }

  lemma ReserveKeeps(s: State, t: Tid)
    requires Inv(s) && t < |s.pcs| && s.pcs[t].Reserve?
    ensures Inv(Advance(s, t))
  {
    var s', n := Advance(s, t), |s.log|;
    assert ThreadOk(s, t);
    PcsUpdate(s, t, s'.pcs[t]);
    forall v: Unit | !v.Pending? ensures Count(s'.log, |s'.log|, v) == Count(s.log, n, v) && Count(s'.log, n, v) == Count(s.log, n, v) {
      CountPrefix(s.log, s'.log, n, v);
      CountNone(s'.log, n, |s'.log|, v);
    }
    forall u | 0 <= u < |s.pcs| ensures ThreadOk(s', u) {
      assert ThreadOk(s, u);
      if u != t { OthersKeep(s, s', t, u); }
    }
    forall k | 0 < k <= |s'.log| ensures Covered(s'.log, k, s'.tail) {
      if k <= n { CoverKeeps(s.log, s'.log, k, s.tail); }
    }
  }

  lemma {:induction false} CountNone(log: seq<Unit>, m: nat, n: nat, u: Unit)
    requires m <= n <= |log| && forall i :: m <= i < n ==> log[i] != u
    ensures Count(log, n, u) == Count(log, m, u)
  {
    if m < n { CountNone(log, m, n - 1, u); }
  }

  /** Taking units is sound: the subtraction sees at least the units returned before `mine`. */
  lemma TakeCovers(log: seq<Unit>, mine: nat, count: nat, over: nat, t: Tid, tail: nat)
    requires All(log, mine, mine + count, Pending(t)) && over <= Count(log, mine, Returned)
    requires mine - over + count <= tail
    requires forall k :: 0 < k <= |log| ==> Covered(log, k, tail)
    ensures var log' := Mark(log, mine, mine + count, Taken); forall k :: 0 < k <= |log| ==> Covered(log', k, tail)
  {
    var log' := Mark(log, mine, mine + count, Taken);
    forall k | 0 < k <= |log'| ensures Covered(log', k, tail) {
      if mine < k <= mine + count {
        CountMark(log, mine, mine + count, Taken, t, k);
        CountUpTo(log, mine, k, Returned);
      } else {
        CoverKeeps(log, log', k, tail);
      }
    }
  }

  lemma ReturnCovers(log: seq<Unit>, a: nat, b: nat, t: Tid, tail: nat)
    requires a <= b && All(log, a, b, Pending(t))
    requires forall k :: 0 < k <= |log| ==> Covered(log, k, tail)
    ensures forall k :: 0 < k <= |log| ==> Covered(Mark(log, a, b, Returned), k, tail)
  {
    forall k | 0 < k <= |log| ensures Covered(Mark(log, a, b, Returned), k, tail) {
      CoverKeeps(log, Mark(log, a, b, Returned), k, tail);
    }
  }

  /** Thread t rewrote its pending units: every thread keeps its facts if t does. */
  lemma ThreadsKeep(s: State, s': State, t: Tid)
    requires Inv(s) && t < |s.pcs| == |s'.pcs| && s'.pcs == s.pcs[t := s'.pcs[t]] && ThreadOk(s', t)
    requires s.overcommit <= s'.overcommit && |s.log| <= |s'.log|
    requires forall i :: 0 <= i < |s.log| ==> s'.log[i] == s.log[i] || s.log[i] == Pending(t)
    ensures forall u :: 0 <= u < |s.pcs| ==> ThreadOk(s', u)
  {
    forall u | 0 <= u < |s.pcs| ensures ThreadOk(s', u) {
      assert ThreadOk(s, u);
      if u != t { OthersKeep(s, s', t, u); }
    }
  }

  lemma ApproveKeeps(s: State, t: Tid)
    requires Inv(s) && t < |s.pcs| && s.pcs[t].ReloadTail?
    requires 0 < s.tail - (s.pcs[t].mine - s.pcs[t].over)
    ensures Inv(Advance(s, t))
  {
    var ReloadTail(desired, over, mine) := s.pcs[t];
    var count := Min(desired, s.tail - (mine - over));
    var p := if count < desired then GiveBack(desired, mine, count, true) else ClaimHead(mine, count);
    ApprovedKeeps(s, t, count, p);
    assert Advance(s, t) == s.(pcs := s.pcs[t := p], log := Mark(s.log, mine, mine + count, Taken));
  }

  lemma ApprovedKeeps(s: State, t: Tid, count: nat, p: Pc)
    requires Inv(s) && t < |s.pcs| && s.pcs[t].ReloadTail? && count <= s.pcs[t].desired
    requires s.pcs[t].mine - s.pcs[t].over + count <= s.tail
    requires p == GiveBack(s.pcs[t].desired, s.pcs[t].mine, count, true)
      || (p == ClaimHead(s.pcs[t].mine, count) && count == s.pcs[t].desired)
    ensures Inv(s.(pcs := s.pcs[t := p], log := Mark(s.log, s.pcs[t].mine, s.pcs[t].mine + count, Taken)))
  {
    var ReloadTail(desired, over, mine) := s.pcs[t];
    var s' := s.(pcs := s.pcs[t := p], log := Mark(s.log, mine, mine + count, Taken));
    assert ThreadOk(s, t);
    assert All(s.log, mine, mine + count, Pending(t));
    PcsUpdate(s, t, p);
    CountMark(s.log, mine, mine + count, Taken, t, |s.log|);
    TakeCovers(s.log, mine, count, over, t, s.tail);
    ThreadsKeep(s, s', t);
  }

  lemma RefuseKeeps(s: State, t: Tid)
    requires Inv(s) && t < |s.pcs| && s.pcs[t].ReloadTail?
    requires s.tail - (s.pcs[t].mine - s.pcs[t].over) <= 0
    ensures Inv(Advance(s, t))
  {
    var s' := Advance(s, t);
    assert ThreadOk(s, t);
    PcsUpdate(s, t, s'.pcs[t]);
    ThreadsKeep(s, s', t);
  }

  lemma GiveBackKeeps(s: State, t: Tid)
    requires Inv(s) && t < |s.pcs| && s.pcs[t].GiveBack?
    ensures Inv(Advance(s, t))
  {
    var GiveBack(desired, mine, actual, claiming) := s.pcs[t];
    var a, b, p := mine + actual, mine + desired, if claiming then ClaimHead(mine, actual) else Idle;
    var s' := Advance(s, t);
    assert ThreadOk(s, t);
    assert s' == s.(overcommit := s.overcommit + (b - a), pcs := s.pcs[t := p], log := Mark(s.log, a, b, Returned));
    PcsUpdate(s, t, p);
    CountMark(s.log, a, b, Returned, t, |s.log|);
    ReturnCovers(s.log, a, b, t, s.tail);
    ThreadsKeep(s, s', t);
  }

  lemma ClaimKeeps(s: State, t: Tid)
    requires Inv(s) && t < |s.pcs| && s.pcs[t].ClaimHead?
    ensures Inv(Advance(s, t))
  {
    var s' := Advance(s, t);
    PcsUpdate(s, t, Idle);
    forall u | 0 <= u < |s.pcs| ensures ThreadOk(s', u) {
      assert ThreadOk(s, u);
    }
  }

  lemma AdvanceKeeps(s: State, t: Tid)
    requires Inv(s) && t < |s.pcs|
    ensures Inv(Advance(s, t))
  {
    match s.pcs[t]
    case Reserve(_, _) => ReserveKeeps(s, t);
    case ReloadTail(_, over, mine) =>
      if 0 < s.tail - (mine - over) { ApproveKeeps(s, t); } else { RefuseKeeps(s, t); }
    case GiveBack(_, _, _, _) => GiveBackKeeps(s, t);
    case ClaimHead(_, _) => ClaimKeeps(s, t);
    case _ => LoadKeeps(s, t);
  }

  /** What a consumer's step leaves alone. */
  lemma AdvanceFrame(s: State, t: Tid)
    requires t < |s.pcs|
    ensures var s' := Advance(s, t);
      && s'.tail == s.tail && |s'.pcs| == |s.pcs| && s'.pcs == s.pcs[t := s'.pcs[t]]
      && s'.head == s.head + (if s.pcs[t].ClaimHead? then s.pcs[t].actual else 0)
      && (s.pcs[t].Idle? ==> s' == s) && (s.pcs[t].ClaimHead? ==> s'.pcs[t].Idle?)
  {
  }

  lemma NextKeeps(s: State, s': State)
    requires Inv(s) && Next(s, s')
    ensures Inv(s')
  {
    if t :| 0 <= t < |s.pcs| && s' == Advance(s, t) {
      AdvanceKeeps(s, t);
    } else if t, max: nat :| 0 <= t < |s.pcs| && s.pcs[t].Idle? && s' == Begin(s, t, max) {
      BeginKeeps(s, t, max);
    } else {
      var n: nat :| s' == Publish(s, n);
      PublishKeeps(s, n);
    }
  }

  lemma BeginKeeps(s: State, t: Tid, max: nat)
    requires Inv(s) && t < |s.pcs| && s.pcs[t].Idle?
    ensures Inv(Begin(s, t, max))
  {
    var s' := Begin(s, t, max);
    PcsUpdate(s, t, s'.pcs[t]);
    forall u | 0 <= u < |s.pcs| ensures ThreadOk(s', u) {
      assert ThreadOk(s, u);
    }
  }

  lemma PublishKeeps(s: State, n: nat)
    requires Inv(s)
    ensures Inv(Publish(s, n))
  {
    var s' := Publish(s, n);
    forall u | 0 <= u < |s.pcs| ensures ThreadOk(s', u) {
      assert ThreadOk(s, u);
    }
    forall k | 0 < k <= |s'.log| ensures Covered(s'.log, k, s'.tail) {
      assert Covered(s.log, k, s.tail);
    }
  }

  // ------------------------------------------------------------- every run

  ghost predicate IsRun(run: seq<State>) {
    && run != [] && Init(run[0])
    && forall i :: 0 <= i < |run| - 1 ==> StepOk(run, i)
  }

  ghost predicate StepOk(run: seq<State>, i: nat)
    requires i < |run| - 1
  {
    Next(run[i], run[i+1])
  }

  ghost predicate Reachable(s: State) {
    exists run :: IsRun(run) && run[|run|-1] == s
  }

  lemma InitInv(s: State)
    requires Init(s)
    ensures Inv(s)
  {
    SumZero(InFlights(s.pcs));
    SumZero(Approveds(s.pcs));
  }

  lemma {:induction false} RunInv(run: seq<State>, i: nat)
    requires IsRun(run) && i < |run|
    ensures Inv(run[i])
  {
    if i == 0 {
      InitInv(run[0]);
    } else {
      RunInv(run, i - 1);
      assert StepOk(run, i - 1);
      NextKeeps(run[i-1], run[i]);
    }
  }

  lemma Safety(s: State)
    requires Reachable(s)
    ensures Inv(s)
  {
    var run :| IsRun(run) && run[|run|-1] == s;
    RunInv(run, |run| - 1);
  }

  /** The conservation law of the three counters, and what it gives when nobody is in flight. */
  lemma Conservation(s: State)
    requires Reachable(s)
    ensures s.optimistic == s.head + s.overcommit + Sum(InFlights(s.pcs))
    ensures (forall t :: 0 <= t < |s.pcs| ==> InFlight(s.pcs[t]) == 0) ==> s.optimistic - s.overcommit == s.head
  {
    Safety(s);
    if forall t :: 0 <= t < |s.pcs| ==> InFlight(s.pcs[t]) == 0 {
      SumZero(InFlights(s.pcs));
    }
  }

  lemma HeadFits(s: State)
    requires Inv(s)
    ensures s.head + Sum(Approveds(s.pcs)) <= s.tail
    ensures forall t :: 0 <= t < |s.pcs| && s.pcs[t].ClaimHead? ==> s.head + s.pcs[t].actual <= s.tail
  {
    TakenBound(s.log, |s.log|, s.tail);
    forall t | 0 <= t < |s.pcs| && s.pcs[t].ClaimHead? ensures s.head + s.pcs[t].actual <= s.tail {
      SumBounds(Approveds(s.pcs), t);
    }
  }

  /** The head index never passes the tail, even counting what is approved but not yet claimed. */
  lemma HeadNeverPassesTail(s: State)
    requires Reachable(s)
    ensures s.head + Sum(Approveds(s.pcs)) <= s.tail
    ensures forall t :: 0 <= t < |s.pcs| && s.pcs[t].ClaimHead? ==> s.head + s.pcs[t].actual <= s.tail
  {
    Safety(s);
    HeadFits(s);
  }

  /** A consumer that asked for something asks for, approves and claims something. */
  predicate Positive(p: Pc) {
    match p
    case LoadOvercommit(max, _) => max > 0
    case LoadOptimistic(max, _, _) => max > 0
    case Reserve(desired, _) => desired > 0
    case ReloadTail(desired, _, _) => desired > 0
    case GiveBack(_, _, actual, claiming) => claiming ==> actual > 0
    case ClaimHead(_, actual) => actual > 0
    case Idle => true
  }

  lemma PositiveKeeps(s: State, t: Tid)
    requires t < |s.pcs| && Positive(s.pcs[t])
    ensures Positive(Advance(s, t).pcs[t])
  {
  }

  ghost predicate Contains(r: Range, x: nat) {
    r.first <= x < r.first + r.count
  }

  lemma {:induction false} TilesOrdered(claims: seq<Range>, head: nat, i: nat, j: nat)
    requires Tiled(claims, head) && i < j < |claims|
    ensures claims[i].first + claims[i].count <= claims[j].first
  {
    assert claims[j-1+1].first == claims[j-1].first + claims[j-1].count;
    if i + 1 < j { TilesOrdered(claims, head, i, j - 1); }
  }

  lemma {:induction false} TilesCover(claims: seq<Range>, n: nat, head: nat, x: nat)
    requires Tiled(claims, head) && n < |claims| && x < claims[n].first + claims[n].count
    ensures exists j :: 0 <= j <= n && Contains(claims[j], x)
  {
    if x >= claims[n].first {
      assert Contains(claims[n], x);
    } else {
      assert claims[n-1+1].first == claims[n-1].first + claims[n-1].count;
      TilesCover(claims, n - 1, head, x);
    }
  }

  /** In every run each index below the head is in exactly one claimed range. */
  lemma ClaimedOnce(s: State, x: nat)
    requires Reachable(s)
    ensures x < s.head <==> exists j :: 0 <= j < |s.claims| && Contains(s.claims[j], x)
    ensures forall i, j ::
      0 <= i < |s.claims| && 0 <= j < |s.claims| && Contains(s.claims[i], x) && Contains(s.claims[j], x) ==> i == j
  {
    Safety(s);
    if x < s.head {
      TilesCover(s.claims, |s.claims| - 1, s.head, x);
    }
    forall i, j | 0 <= i < j < |s.claims| && Contains(s.claims[i], x) ensures !Contains(s.claims[j], x) {
      TilesOrdered(s.claims, s.head, i, j);
    }
    forall j | 0 <= j < |s.claims| && Contains(s.claims[j], x) ensures x < s.head {
      if j < |s.claims| - 1 { TilesOrdered(s.claims, s.head, j, |s.claims| - 1); }
    }
  }

  // -------------------------------------------------- a dequeue that gets less

  /** A thread inside a call is moved by its own steps only. */
  lemma OwnStep(s: State, s': State, t: Tid)
    requires Next(s, s') && t < |s.pcs| && !s.pcs[t].Idle?
    ensures |s'.pcs| == |s.pcs| && s.tail <= s'.tail
    ensures s'.pcs[t] == s.pcs[t] || s' == Advance(s, t)
  {
    if u :| 0 <= u < |s.pcs| && s' == Advance(s, u) {
      AdvanceFrame(s, u);
    }
  }

  /** Thread t calls dequeue for up to `max` elements at step a and has not returned before state k. */
  ghost predicate InCall(run: seq<State>, t: Tid, max: nat, a: nat, k: nat) {
    && a < k < |run| && t < |run[a].pcs| && run[a].pcs[t].Idle? && run[a+1] == Begin(run[a], t, max)
    && forall i :: a < i < k ==> t < |run[i].pcs| && !run[i].pcs[t].Idle?
  }

  /** The next step reads the optimistic count. */
  predicate ReadsCount(p: Pc) {
    p.LoadOptimistic? || p.Reserve?
  }

  /**
   Everything published when the call loaded the tail, at a, was covered at state
   d, but for n elements: it was claimed, in flight with another consumer, or given
   back since state c. At d the caller reads the optimistic count, with nothing of
   its own in flight.
   */
  ghost predicate CoveredBut(run: seq<State>, t: Tid, a: nat, c: nat, d: nat, n: nat) {
    && a < c < d < |run| && t < |run[d].pcs| && ReadsCount(run[d].pcs[t])
    && run[a].tail <= run[d].head + Sum(InFlights(run[d].pcs)) + (run[d].overcommit - run[c].overcommit) + n
  }

  /** At some moments of the call before state k, all but n elements were covered. */
  ghost predicate Short(run: seq<State>, t: Tid, a: nat, k: nat, n: nat) {
    exists c: nat, d: nat :: d < k && CoveredBut(run, t, a, c, d, n)
  }

  /** `over` was the overcommit at state c of the call. */
  ghost predicate LoadedOver(run: seq<State>, a: nat, c: nat, k: nat, over: nat) {
    a < c < k <= |run| && run[c].overcommit == over
  }

  /** `mine` was the optimistic count that thread t read at state d of the call. */
  ghost predicate LoadedMine(run: seq<State>, t: Tid, c: nat, d: nat, k: nat, mine: nat) {
    c < d < k <= |run| && run[d].optimistic == mine && t < |run[d].pcs| && ReadsCount(run[d].pcs[t])
  }

  /** What thread t's registers at state k remember of its call. */
  ghost predicate Remembers(run: seq<State>, t: Tid, max: nat, a: nat, k: nat)
    requires a < k < |run| && t < |run[k].pcs|
  {
    match run[k].pcs[t]
    case Idle => true
    case LoadOvercommit(m, tail) => m == max && tail == run[a].tail
    case LoadOptimistic(m, tail, over) => m == max && tail == run[a].tail && exists c: nat :: LoadedOver(run, a, c, k, over)
    case Reserve(desired, over) =>
      && desired <= max && (desired < max ==> Short(run, t, a, k, desired))
      && exists c: nat :: LoadedOver(run, a, c, k, over)
    case ReloadTail(desired, over, mine) =>
      && desired <= max && (desired < max ==> Short(run, t, a, k, desired))
      && exists c: nat, d: nat :: LoadedOver(run, a, c, k, over) && LoadedMine(run, t, c, d, k, mine)
    case GiveBack(_, _, actual, claiming) => actual <= max && (!claiming ==> actual == 0) && Short(run, t, a, k, actual)
    case ClaimHead(_, actual) => actual <= max && (actual < max ==> Short(run, t, a, k, actual))
  }

  /** What the subtraction on the counters says about the state in which they were read. */
  lemma Counted(run: seq<State>, t: Tid, a: nat, c: nat, d: nat, n: nat, k: nat)
    requires IsRun(run) && a < c < d < k <= |run| && t < |run[d].pcs| && ReadsCount(run[d].pcs[t])
    requires run[a].tail - (run[d].optimistic - run[c].overcommit) <= n
    ensures Short(run, t, a, k, n)
  {
    RunInv(run, d);
    assert CoveredBut(run, t, a, c, d, n);
  }

  lemma ShortLater(run: seq<State>, t: Tid, a: nat, k: nat, k': nat, n: nat)
    requires k <= k'
    ensures Short(run, t, a, k, n) ==> Short(run, t, a, k', n)
  {
  }

  lemma RemembersLoad(run: seq<State>, t: Tid, max: nat, a: nat, k: nat)
    requires IsRun(run) && a < k < |run| - 1 && t < |run[k].pcs| && Remembers(run, t, max, a, k)
    requires run[k+1] == Advance(run[k], t) && (run[k].pcs[t].LoadOvercommit? || ReadsCount(run[k].pcs[t]))
    ensures Remembers(run, t, max, a, k + 1)
    ensures run[k+1].pcs[t].Idle? ==> Short(run, t, a, k + 1, 0)
  {
    match run[k].pcs[t]
    case LoadOvercommit(_, _) => assert LoadedOver(run, a, k, k + 1, run[k].overcommit);
    case LoadOptimistic(_, tail, over) =>
      var c: nat :| LoadedOver(run, a, c, k, over);
      assert LoadedOver(run, a, c, k + 1, over);
      var n := tail - (run[k].optimistic - over);
      Counted(run, t, a, c, k, if n < 0 then 0 else n, k + 1);
    case Reserve(desired, over) =>
      var c: nat :| LoadedOver(run, a, c, k, over);
      assert LoadedOver(run, a, c, k + 1, over) && LoadedMine(run, t, c, k, k + 1, run[k].optimistic);
      ShortLater(run, t, a, k, k + 1, desired);
    case _ =>
  }

  lemma RemembersReload(run: seq<State>, t: Tid, max: nat, a: nat, k: nat)
    requires IsRun(run) && a < k < |run| - 1 && t < |run[k].pcs| && Remembers(run, t, max, a, k)
    requires run[k+1] == Advance(run[k], t) && run[k].pcs[t].ReloadTail? && run[a].tail <= run[k].tail
    ensures Remembers(run, t, max, a, k + 1) && !run[k+1].pcs[t].Idle?
  {
    var ReloadTail(desired, over, mine) := run[k].pcs[t];
    var c: nat, d: nat :| LoadedOver(run, a, c, k, over) && LoadedMine(run, t, c, d, k, mine);
    var n := run[k].tail - (mine - over);
    if n < desired || n <= 0 { Counted(run, t, a, c, d, if n < 0 then 0 else n, k + 1); }
    ShortLater(run, t, a, k, k + 1, desired);
  }

  lemma RemembersAside(run: seq<State>, t: Tid, max: nat, a: nat, k: nat)
    requires a < k < |run| - 1 && t < |run[k].pcs| && Remembers(run, t, max, a, k)
    requires t < |run[k+1].pcs| && run[k+1].pcs[t] == run[k].pcs[t]
    ensures Remembers(run, t, max, a, k + 1)
  {
    match run[k].pcs[t]
    case LoadOptimistic(_, _, over) =>
      var c: nat :| LoadedOver(run, a, c, k, over);
      assert LoadedOver(run, a, c, k + 1, over);
    case Reserve(_, over) =>
      var c: nat :| LoadedOver(run, a, c, k, over);
      assert LoadedOver(run, a, c, k + 1, over);
    case ReloadTail(_, over, mine) =>
      var c: nat, d: nat :| LoadedOver(run, a, c, k, over) && LoadedMine(run, t, c, d, k, mine);
      assert LoadedOver(run, a, c, k + 1, over) && LoadedMine(run, t, c, d, k + 1, mine);
    case _ =>
  }

  lemma RemembersStep(run: seq<State>, t: Tid, max: nat, a: nat, k: nat)
    requires IsRun(run) && a < k < |run| - 1 && t < |run[k].pcs| && Remembers(run, t, max, a, k)
    requires run[k+1] == Advance(run[k], t) && !run[k].pcs[t].Idle? && run[a].tail <= run[k].tail
    ensures Remembers(run, t, max, a, k + 1)
    ensures run[k+1].pcs[t].Idle? && run[k+1].claims == run[k].claims ==> Short(run, t, a, k + 1, 0)
  {
    match run[k].pcs[t]
    case ReloadTail(_, _, _) => RemembersReload(run, t, max, a, k);
    case GiveBack(_, _, actual, _) => ShortLater(run, t, a, k, k + 1, actual);
    case ClaimHead(_, _) => assert |run[k+1].claims| == |run[k].claims| + 1;
    case _ => RemembersLoad(run, t, max, a, k);
  }

  lemma {:induction false} CallRemembers(run: seq<State>, t: Tid, max: nat, a: nat, k: nat)
    requires IsRun(run) && InCall(run, t, max, a, k) && t < |run[k].pcs| && !run[k].pcs[t].Idle?
    ensures Remembers(run, t, max, a, k) && run[a].tail <= run[k].tail
    decreases k
  {
    if a + 1 < k {
      assert StepOk(run, k - 1);
      OwnStep(run[k-1], run[k], t);
      assert InCall(run, t, max, a, k - 1);
      CallRemembers(run, t, max, a, k - 1);
      if run[k].pcs[t] == run[k-1].pcs[t] { RemembersAside(run, t, max, a, k - 1); } else { RemembersStep(run, t, max, a, k - 1); }
    }
  }

  /** The call of thread t that began at a ends with the step from state b, with a claim of n elements or, for n == 0, without one. */
  ghost predicate Ends(run: seq<State>, t: Tid, max: nat, a: nat, b: nat, n: nat) {
    && InCall(run, t, max, a, b) && b + 1 < |run|
    && t < |run[b].pcs| && !run[b].pcs[t].Idle? && t < |run[b+1].pcs| && run[b+1].pcs[t].Idle?
    && ((run[b+1].claims == run[b].claims && n == 0)
        || (|run[b+1].claims| > 0 && run[b+1].claims == run[b].claims + [Range(t, run[b].head, n)]))
  }

  /**
   Why a dequeue may return less than it was asked for, or nothing: if a call of
   thread t returns n elements, fewer than `max`, then at one moment d of the call
   everything published when it began, except n elements, was already claimed, in
   flight with other consumers, or given back by them since an earlier moment c of
   the same call. It never returns more than `max`.
   */
  lemma ReturnsLess(run: seq<State>, t: Tid, max: nat, a: nat, b: nat, n: nat) returns (c: nat, d: nat)
    requires IsRun(run) && Ends(run, t, max, a, b, n)
    ensures n <= max
    ensures n < max || run[b+1].claims == run[b].claims ==> a < c < d <= b && CoveredBut(run, t, a, c, d, n)
  {
    CallRemembers(run, t, max, a, b);
    assert StepOk(run, b);
    OwnStep(run[b], run[b+1], t);
    RemembersStep(run, t, max, a, b);
    if run[b+1].claims != run[b].claims {
      assert run[b].pcs[t].ClaimHead? && run[b+1].claims[|run[b].claims|] == Range(t, run[b].head, n);
      assert n == run[b].pcs[t].actual;
    }
    c, d := 0, 0;
    if n < max || run[b+1].claims == run[b].claims {
      ShortLater(run, t, a, b, b + 1, n);
      assert Short(run, t, a, b + 1, n);
      c, d :| d < b + 1 && CoveredBut(run, t, a, c, d, n);
    }
  }

  /** Nobody but t has units in flight. */
  ghost predicate OthersQuiet(s: State, t: Tid) {
    forall u :: 0 <= u < |s.pcs| && u != t ==> InFlight(s.pcs[u]) == 0
  }

  lemma QuietStep(s: State, s': State, t: Tid)
    requires Inv(s) && Next(s, s') && t < |s.pcs| && OthersQuiet(s, t) && InFlight(s.pcs[t]) == 0
    ensures s'.overcommit == s.overcommit && s'.head == s.head
  {
    if u :| 0 <= u < |s.pcs| && s' == Advance(s, u) {
      assert ThreadOk(s, u);
      if s.pcs[u].GiveBack? { assert s.pcs[u].desired == 0; }
    }
  }

  /** Before it reads the count, a call has nothing in flight. */
  lemma {:induction false} NotYet(run: seq<State>, t: Tid, max: nat, a: nat, k: nat, d: nat)
    requires IsRun(run) && InCall(run, t, max, a, d) && a < k <= d && t < |run[d].pcs| && t < |run[k].pcs|
    requires ReadsCount(run[d].pcs[t])
    ensures run[k].pcs[t].LoadOvercommit? || ReadsCount(run[k].pcs[t])
    decreases d - k
  {
    if k < d {
      assert StepOk(run, k);
      OwnStep(run[k], run[k+1], t);
      NotYet(run, t, max, a, k + 1, d);
    }
  }

  /** While nobody is in flight, head index and overcommit stand still. */
  lemma {:induction false} StandsStill(run: seq<State>, t: Tid, max: nat, a: nat, k: nat, d: nat)
    requires IsRun(run) && InCall(run, t, max, a, d) && a <= k <= d && t < |run[d].pcs| && ReadsCount(run[d].pcs[t])
    requires forall i :: a <= i <= d ==> OthersQuiet(run[i], t)
    ensures run[k].head == run[a].head && run[k].overcommit == run[a].overcommit
    decreases k
  {
    if a < k {
      StandsStill(run, t, max, a, k - 1, d);
      assert StepOk(run, k - 1);
      RunInv(run, k - 1);
      if a < k - 1 { NotYet(run, t, max, a, k - 1, d); }
      QuietStep(run[k-1], run[k], t);
    }
  }

  /**
   A dequeue during which no other consumer has units in flight returns at least as
   many elements as there were when it began, up to `max`; so it returns nothing
   only from an empty queue.
   */
  lemma ReturnsAllAlone(run: seq<State>, t: Tid, max: nat, a: nat, b: nat, n: nat)
    requires IsRun(run) && Ends(run, t, max, a, b, n) && forall i :: a <= i <= b ==> OthersQuiet(run[i], t)
    ensures run[a].head <= run[a].tail && Min(max, run[a].tail - run[a].head) <= n <= max
  {
    var c, d := ReturnsLess(run, t, max, a, b, n);
    if n < max {
      assert InCall(run, t, max, a, d);
      StandsStill(run, t, max, a, c, d);
      StandsStill(run, t, max, a, d, d);
      SumZero(InFlights(run[d].pcs));
    }
    RunInv(run, a);
    HeadFits(run[a]);
  }

  // ---------------------------------------------------------- a dequeue on its own

  /** n steps of thread t in a row. */
  ghost function Alone(s: State, t: Tid, n: nat): State
    requires t < |s.pcs|
    decreases n
  {
    if n == 0 then s else Alone(Advance(s, t), t, n - 1)
  }

  /** Elements that are neither claimed nor reserved by a consumer in flight. */
  ghost function Available(s: State): int {
    s.tail - s.head - Sum(InFlights(s.pcs))
  }

  /**
   A dequeue of up to `max` elements that runs without interruption, wherever other
   consumers were stopped, claims exactly as many of the available elements as it
   may, gives nothing back, and changes nothing else.
   */
  lemma AloneClaims(s: State, t: Tid, max: nat)
    requires Reachable(s) && t < |s.pcs| && s.pcs[t].Idle? && Available(s) > 0
    ensures var n := Min(max, Available(s));
      Alone(Begin(s, t, max), t, 5) == s.(
        head := s.head + n, optimistic := s.optimistic + n,
        claims := s.claims + [Range(t, s.head, n)], log := s.log + seq(n, _ => Taken))
  {
    Safety(s);
    var n := Min(max, Available(s));
    AloneReserves(s, t, max);
    AloneTakes(s, t, n, s.optimistic, s.overcommit);
    FiveSteps(Begin(s, t, max), t);
  }

  /** The state in which thread t has just reserved n units. */
  ghost function Reserved(s: State, t: Tid, n: nat): State
    requires t < |s.pcs|
  {
    s.(pcs := s.pcs[t := ReloadTail(n, s.overcommit, s.optimistic)], optimistic := s.optimistic + n,
       log := s.log + seq(n, _ => Pending(t)))
  }

  lemma AloneReserves(s: State, t: Tid, max: nat)
    requires Inv(s) && t < |s.pcs| && s.pcs[t].Idle? && Available(s) > 0
    ensures Advance(Advance(Advance(Begin(s, t, max), t), t), t) == Reserved(s, t, Min(max, Available(s)))
  {
    var n, s0, s3 := Min(max, Available(s)), Begin(s, t, max), Reserved(s, t, Min(max, Available(s)));
    var s1 := s.(pcs := s.pcs[t := LoadOptimistic(max, s.tail, s.overcommit)]);
    var s2 := s.(pcs := s.pcs[t := Reserve(n, s.overcommit)]);
    assert Advance(s0, t) == s1 by { assert s0.pcs[t := s1.pcs[t]] == s1.pcs; }
    assert Advance(s1, t) == s2 by { assert s1.pcs[t := s2.pcs[t]] == s2.pcs; }
    assert Advance(s2, t) == s3 by { assert s2.pcs[t := s3.pcs[t]] == s3.pcs; }
  }

  lemma AloneTakes(s: State, t: Tid, n: nat, mine: nat, over: nat)
    requires Inv(s) && t < |s.pcs| && s.pcs[t].Idle? && 0 < Available(s) && n <= Available(s)
    requires mine == s.optimistic && over == s.overcommit
    ensures Advance(Advance(Reserved(s, t, n), t), t) == s.(
      head := s.head + n, optimistic := s.optimistic + n,
      claims := s.claims + [Range(t, s.head, n)], log := s.log + seq(n, _ => Taken))
  {
    var s3 := Reserved(s, t, n);
    var s4 := s3.(pcs := s.pcs[t := ClaimHead(mine, n)], log := s.log + seq(n, _ => Taken));
    assert Advance(s3, t) == s4 by {
      assert s3.pcs[t := s4.pcs[t]] == s4.pcs;
      assert Mark(s3.log, mine, mine + n, Taken) == s4.log;
    }
    assert s4.pcs[t := Idle] == s.pcs;
  }

  lemma FiveSteps(s: State, t: Tid)
    requires t < |s.pcs|
    ensures Alone(s, t, 2) == Advance(Advance(s, t), t)
    ensures Alone(s, t, 5) == Advance(Advance(Advance(Advance(Advance(s, t), t), t), t), t)
  {
  }

  /** With nothing available it ends at once and leaves everything as it was. */
  lemma AloneFindsNothing(s: State, t: Tid, max: nat)
    requires Reachable(s) && t < |s.pcs| && s.pcs[t].Idle? && Available(s) <= 0
    ensures Alone(Begin(s, t, max), t, 2) == s
  {
    Safety(s);
    var s0 := Begin(s, t, max);
    var s1 := s.(pcs := s.pcs[t := LoadOptimistic(max, s.tail, s.overcommit)]);
    assert Advance(s0, t) == s1 by { assert s0.pcs[t := s1.pcs[t]] == s1.pcs; }
    assert Advance(s1, t) == s by { assert s1.pcs[t := Idle] == s.pcs; }
    FiveSteps(s0, t);
  }

  /** When no consumer has units in flight, all elements between head and tail are available. */
  lemma AvailableAtRest(s: State)
    requires forall t :: 0 <= t < |s.pcs| ==> InFlight(s.pcs[t]) == 0
    ensures Available(s) == s.tail - s.head
  {
    SumZero(InFlights(s.pcs));
  }
}
