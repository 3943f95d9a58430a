/**
 The reference-counted free list of blocks shared by all threads.

 One step of the model is one atomic load, store, compare-exchange or
 fetch-and-add of one thread; a run is any interleaving of such steps.
 `loc` and `list` are history variables: no step reads them to decide what to
 do. They say where each node is, and in which order the list holds its nodes.
 */
module FreeList {
  import opened Common

  type Node = nat
  type Tid = nat

  /** SHOULD_BE_ON_FREELIST: the top bit of the 32-bit word `freeListRefs`. */
  const FLAG: nat := 0x8000_0000
  const WORD: nat := 0x1_0000_0000

  /** What the thread does after `add_knowing_refcount_is_zero` returns. */
  datatype Caller = FromAdd | FromGet(head: Option<Node>)

  /** The next atomic operation of a thread. */
  datatype Pc =
    | Idle
    | AddFlag(node: Node)
    | LinkLoad(node: Node, ret: Caller)
    | LinkNext(node: Node, seen: Option<Node>, ret: Caller)
    | LinkPublish(node: Node, seen: Option<Node>, ret: Caller)
    | LinkCas(node: Node, seen: Option<Node>, ret: Caller)
    | LinkRetract(node: Node, seen: Option<Node>, ret: Caller)
    | GetLoad
    | GetRefs(head: Node)
    | GetIncrement(head: Node, refs: nat)
    | GetNext(head: Node)
    | GetCas(head: Node, next: Option<Node>)
    | GetFinish(head: Node)
    | GetDrop(prev: Node, seen: Option<Node>)

  /** Where a node is. `Flagged`: somebody's last reference will put it back. */
  datatype Loc = OnList | Owned(owner: Tid) | Taken(who: Tid) | Linking(who: Tid) | Flagged

  datatype State = State(
    head: Option<Node>,
    refs: seq<nat>,
    next: seq<Option<Node>>,
    pcs: seq<Pc>,
    loc: seq<Loc>,
    list: seq<Node>)

  // ---------------------------------------------------------------- steps

  function Add32(a: nat, b: int): (r: nat) {
    (a + b) % WORD
  }

  /** The test at the top of the loop of `try_get`. */
  function Loop(h: Option<Node>): Pc {
    match h
    case None => Idle
    case Some(n) => GetRefs(n)
  }

  function Resume(ret: Caller): Pc {
    match ret
    case FromAdd => Idle
    case FromGet(h) => Loop(h)
  }

  ghost predicate InRange(s: State, h: Option<Node>) {
    h.Some? ==> h.value < |s.refs|
  }

  ghost predicate CallerOk(s: State, ret: Caller) {
    ret.FromGet? ==> InRange(s, ret.head)
  }

  /** Every node a thread's registers mention exists. */
  ghost predicate PcOk(s: State, p: Pc) {
    match p
    case Idle => true
    case AddFlag(n) => n < |s.refs|
    case LinkLoad(n, r) => n < |s.refs| && CallerOk(s, r)
    case LinkNext(n, h, r) => n < |s.refs| && InRange(s, h) && CallerOk(s, r)
    case LinkPublish(n, h, r) => n < |s.refs| && InRange(s, h) && CallerOk(s, r)
    case LinkCas(n, h, r) => n < |s.refs| && InRange(s, h) && CallerOk(s, r)
    case LinkRetract(n, h, r) => n < |s.refs| && InRange(s, h) && CallerOk(s, r)
    case GetLoad => true
    case GetRefs(n) => n < |s.refs|
    case GetIncrement(n, _) => n < |s.refs|
    case GetNext(n) => n < |s.refs|
    case GetCas(n, x) => n < |s.refs| && InRange(s, x)
    case GetFinish(n) => n < |s.refs|
    case GetDrop(n, h) => n < |s.refs| && InRange(s, h)
  }

  ghost predicate Shaped(s: State) {
    && |s.refs| == |s.next| == |s.loc|
    && InRange(s, s.head)
    && (forall n :: 0 <= n < |s.next| ==> InRange(s, s.next[n]))
    && (forall t :: 0 <= t < |s.pcs| ==> PcOk(s, s.pcs[t]))
  }

  /** The node whose `freeListRefs` counts a reference of a thread here. */
  predicate Holds(p: Pc, n: Node) {
    match p
    case GetNext(h) => h == n
    case GetCas(h, _) => h == n
    case GetFinish(h) => h == n
    case GetDrop(h, _) => h == n
    case _ => false
  }

  /** The next atomic operation of thread t, inside `add` or `try_get`. */
  ghost function Advance(s: State, t: Tid): State
    requires Shaped(s) && t < |s.pcs|
  {
    match s.pcs[t]
    case Idle => s
    case AddFlag(n) =>
      var was := s.refs[n];
      s.(refs := s.refs[n := Add32(was, FLAG)],
         pcs := s.pcs[t := if was == 0 then LinkLoad(n, FromAdd) else Idle],
         loc := s.loc[n := if was == 0 then Linking(t) else Flagged])
    case LinkLoad(n, r) =>
      s.(pcs := s.pcs[t := LinkNext(n, s.head, r)])
    case LinkNext(n, h, r) =>
      s.(next := s.next[n := h], pcs := s.pcs[t := LinkPublish(n, h, r)])
    case LinkPublish(n, h, r) =>
      s.(refs := s.refs[n := 1], pcs := s.pcs[t := LinkCas(n, h, r)])
    case LinkCas(n, h, r) =>
      if s.head == h then
        s.(head := Some(n), pcs := s.pcs[t := Resume(r)],
           loc := s.loc[n := OnList], list := [n] + s.list)
      else
        s.(pcs := s.pcs[t := LinkRetract(n, s.head, r)])
    case LinkRetract(n, h, r) =>
      var was := s.refs[n];
      s.(refs := s.refs[n := Add32(was, FLAG - 1)],
         pcs := s.pcs[t := if was == 1 then LinkNext(n, h, r) else Resume(r)],
         loc := if was == 1 then s.loc else s.loc[n := Flagged])
    case GetLoad =>
      s.(pcs := s.pcs[t := Loop(s.head)])
    case GetRefs(n) =>
      var refs := s.refs[n];
      s.(pcs := s.pcs[t := if refs % FLAG == 0 then GetLoad else GetIncrement(n, refs)])
    case GetIncrement(n, refs) =>
      if s.refs[n] == refs then
        s.(refs := s.refs[n := Add32(refs, 1)], pcs := s.pcs[t := GetNext(n)])
      else
        s.(pcs := s.pcs[t := GetLoad])
    case GetNext(n) =>
      s.(pcs := s.pcs[t := GetCas(n, s.next[n])])
    case GetCas(n, x) =>
      if s.head == Some(n) then
        s.(head := x, pcs := s.pcs[t := GetFinish(n)], loc := s.loc[n := Taken(t)],
           list := if s.list == [] then [] else s.list[1..])
      else
        s.(pcs := s.pcs[t := GetDrop(n, s.head)])
    case GetFinish(n) =>
      s.(refs := s.refs[n := Add32(s.refs[n], -2)], pcs := s.pcs[t := Idle],
         loc := s.loc[n := Owned(t)])
    case GetDrop(n, h) =>
      var was := s.refs[n];
      s.(refs := s.refs[n := Add32(was, -1)],
         pcs := s.pcs[t := if was == FLAG + 1 then LinkLoad(n, FromGet(h)) else Loop(h)],
         loc := if was == FLAG + 1 then s.loc[n := Linking(t)] else s.loc)
  }

  /** What an idle thread may start: add a node it owns, get one, or hand one over. */
  datatype Call = Add(n: Node) | Get | HandOver(m: Node, to: Tid)

  ghost predicate CanCall(s: State, t: Tid, c: Call)
    requires Shaped(s)
  {
    && t < |s.pcs| && s.pcs[t].Idle?
    && match c
       case Add(n) => n < |s.loc| && s.loc[n] == Owned(t)
       case Get => true
       case HandOver(m, to) => m < |s.loc| && s.loc[m] == Owned(t) && to < |s.pcs|
  }

  ghost function Begin(s: State, t: Tid, c: Call): State
    requires Shaped(s) && CanCall(s, t, c)
  {
    match c
    case Add(n) => s.(pcs := s.pcs[t := AddFlag(n)])
    case Get => s.(pcs := s.pcs[t := GetLoad])
    case HandOver(m, to) => s.(loc := s.loc[m := Owned(to)])
  }

  ghost predicate Next(s: State, s': State)
    requires Shaped(s)
  {
    || (exists t :: 0 <= t < |s.pcs| && s' == Advance(s, t))
    || (exists t, c :: CanCall(s, t, c) && s' == Begin(s, t, c))
  }

  /** At the start every node is owned, nobody is inside a call. */
  ghost predicate Init(s: State) {
    && Shaped(s)
    && |s.pcs| + 1 < FLAG
    && s.head == None && s.list == []
    && (forall n :: 0 <= n < |s.refs| ==> s.refs[n] == 0)
    && (forall n :: 0 <= n < |s.loc| ==> s.loc[n].Owned? && s.loc[n].owner < |s.pcs|)
    && (forall t :: 0 <= t < |s.pcs| ==> s.pcs[t] == Idle)
  }

  // ------------------------------------------------------------ invariant

  ghost function Holders(s: State, n: Node): set<Tid> {
    set t | 0 <= t < |s.pcs| && Holds(s.pcs[t], n)
  }

  predicate Unpublished(p: Pc, n: Node) {
    (p.LinkLoad? || p.LinkNext? || p.LinkPublish?) && p.node == n
  }

  predicate Published(p: Pc, n: Node) {
    (p.LinkCas? || p.LinkRetract?) && p.node == n
  }

  /** What the word holds besides the references of threads. */
  ghost function Base(s: State, n: Node): nat
    requires n < |s.loc|
  {
    match s.loc[n]
    case OnList => 1
    case Taken(_) => 1
    case Owned(_) => 0
    case Flagged => FLAG
    case Linking(t) => if t < |s.pcs| && Published(s.pcs[t], n) then 1 else FLAG
  }

  ghost predicate NodeOk(s: State, n: Node)
    requires Shaped(s) && n < |s.refs|
  {
    && s.refs[n] == Base(s, n) + |Holders(s, n)|
    && match s.loc[n]
       case OnList => n in s.list
       case Taken(t) => t < |s.pcs| && s.pcs[t] == GetFinish(n)
       case Owned(t) => t < |s.pcs|
       case Flagged => Holders(s, n) != {}
       case Linking(t) =>
         && t < |s.pcs|
         && (Published(s.pcs[t], n) || (Unpublished(s.pcs[t], n) && Holders(s, n) == {}))
  }

  ghost predicate ThreadOk(s: State, t: Tid)
    requires Shaped(s) && t < |s.pcs|
  {
    match s.pcs[t]
    case AddFlag(n) => s.loc[n] == Owned(t)
    case LinkLoad(n, _) => s.loc[n] == Linking(t)
    case LinkNext(n, _, _) => s.loc[n] == Linking(t)
    case LinkPublish(n, h, _) => s.loc[n] == Linking(t) && s.next[n] == h
    case LinkCas(n, h, _) => s.loc[n] == Linking(t) && s.next[n] == h
    case LinkRetract(n, _, _) => s.loc[n] == Linking(t)
    case GetIncrement(_, refs) => refs % FLAG != 0
    case GetCas(n, x) => s.next[n] == x
    case GetFinish(n) => s.loc[n] == Taken(t)
    case _ => true
  }

  function First(list: seq<Node>): Option<Node> {
    At(list, 0)
  }

  /** The pointers in memory spell exactly `list`. */
  ghost predicate Chain(s: State, list: seq<Node>)
    requires |s.next| == |s.loc|
  {
    && (forall i :: 0 <= i < |list| ==> list[i] < |s.loc| && s.loc[list[i]] == OnList)
    && (forall i :: 0 <= i < |list| ==> PointsOn(s.next, list, i))
    && (forall i, j :: 0 <= i < j < |list| ==> list[i] != list[j])
  }

  /** The pointer of the i-th node leads to the one after it. */
  ghost predicate PointsOn(next: seq<Option<Node>>, list: seq<Node>, i: nat)
    requires i < |list|
  {
    list[i] < |next| && next[list[i]] == At(list, i + 1)
  }

  function At(list: seq<Node>, i: nat): Option<Node> {
    if i < |list| then Some(list[i]) else None
  }

  ghost predicate Inv(s: State) {
    && Shaped(s)
    && |s.pcs| + 1 < FLAG
    && (forall n :: 0 <= n < |s.refs| ==> NodeOk(s, n))
    && (forall t :: 0 <= t < |s.pcs| ==> ThreadOk(s, t))
    && s.head == First(s.list)
    && Chain(s, s.list)
  }

  // ------------------------------------------------------- holders and words

  lemma HoldersStep(s: State, s': State, t: Tid, n: Node)
    requires t < |s.pcs| && |s'.pcs| == |s.pcs| && s'.pcs == s.pcs[t := s'.pcs[t]]
    ensures t in Holders(s, n) <==> Holds(s.pcs[t], n)
    ensures t in Holders(s', n) <==> Holds(s'.pcs[t], n)
    ensures Holders(s', n) - {t} == Holders(s, n) - {t}
    ensures |Holders(s', n)| == |Holders(s, n)|
      + (if Holds(s'.pcs[t], n) then 1 else 0) - (if Holds(s.pcs[t], n) then 1 else 0)
  {
    forall u
      ensures u in Holders(s', n) - {t} <==> u in Holders(s, n) - {t}
    {
    }
    CardToggle(Holders(s, n), Holders(s', n), t);
  }

  lemma HoldersBound(s: State, n: Node)
    ensures |Holders(s, n)| <= |s.pcs|
  {
    BoundedCard(Holders(s, n), |s.pcs|);
  }

  /** The word of a node never leaves 32 bits, and tells the reasons it is non-zero. */
  lemma WordOf(s: State, n: Node)
    requires Shaped(s) && |s.pcs| + 1 < FLAG && n < |s.refs| && NodeOk(s, n)
    ensures s.refs[n] == Base(s, n) + |Holders(s, n)| && |Holders(s, n)| < FLAG - 1
    ensures s.refs[n] < WORD - 1
    ensures s.refs[n] >= FLAG <==> Base(s, n) == FLAG
  {
    HoldersBound(s, n);
  }

  lemma NoWrap(a: nat, b: int)
    requires 0 <= a + b < WORD
    ensures Add32(a, b) == a + b
  {
  }

  // ---------------------------------------------------- every step keeps Inv

  /** The node thread t is working on, as far as ownership goes. */
  predicate Works(p: Pc, n: Node) {
    Holds(p, n) || Unpublished(p, n) || Published(p, n) || p == AddFlag(n)
  }

  /** Thread t moved, but neither on behalf of node m nor in its memory. */
  lemma NodeFrame(s: State, s': State, t: Tid, m: Node)
    requires Inv(s) && Shaped(s') && m < |s.refs| == |s'.refs|
    requires t < |s.pcs| && |s'.pcs| == |s.pcs| && s'.pcs == s.pcs[t := s'.pcs[t]]
    requires s'.refs[m] == s.refs[m] && s'.loc[m] == s.loc[m]
    requires Holds(s.pcs[t], m) == Holds(s'.pcs[t], m)
    requires s.loc[m] == Linking(t) ==>
      && Published(s.pcs[t], m) == Published(s'.pcs[t], m)
      && Unpublished(s.pcs[t], m) == Unpublished(s'.pcs[t], m)
    requires s.loc[m] == Taken(t) ==> s'.pcs[t] == s.pcs[t]
    requires m in s.list ==> m in s'.list
    ensures NodeOk(s', m)
  {
    assert NodeOk(s, m);
    HoldersStep(s, s', t, m);
    assert Holders(s', m) == Holders(s, m);
  }

  /** A thread that did not move keeps its facts if its node's memory did not change. */
  lemma ThreadFrame(s: State, s': State, t: Tid, u: Tid)
    requires Inv(s) && Shaped(s') && u < |s.pcs| && u != t
    requires |s'.pcs| == |s.pcs| && s'.pcs[u] == s.pcs[u]
    requires |s'.refs| == |s.refs|
    requires forall n :: 0 <= n < |s.refs| && s.loc[n] == Owned(u) ==> s'.loc[n] == s.loc[n]
    requires forall n :: 0 <= n < |s.refs| && s.loc[n] == Linking(u) ==> s'.loc[n] == s.loc[n]
    requires forall n :: 0 <= n < |s.refs| && s.loc[n] == Taken(u) ==> s'.loc[n] == s.loc[n]
    requires forall n :: 0 <= n < |s.refs| && s.next[n] != s'.next[n] ==> s.loc[n] == Linking(t) && Holders(s, n) == {}
    ensures ThreadOk(s', u)
  {
    assert ThreadOk(s, u);
    if s.pcs[u].GetCas? {
      assert u in Holders(s, s.pcs[u].head);
    }
  }

  lemma ChainFrame(s: State, s': State)
    requires |s.next| == |s.loc| == |s'.next| == |s'.loc| && Chain(s, s.list)
    requires forall n :: 0 <= n < |s.loc| && s.loc[n] == OnList ==> s'.loc[n] == OnList && s'.next[n] == s.next[n]
    ensures Chain(s', s.list)
  {
    forall i | 0 <= i < |s.list| ensures PointsOn(s'.next, s.list, i) {
      assert PointsOn(s.next, s.list, i);
    }
  }

  /** Thread t took one step that touched node n only: what is left to check. */
  lemma StepKeeps(s: State, s': State, t: Tid, n: Node)
    requires Inv(s) && Shaped(s') && t < |s.pcs| && n < |s.refs| && Framed(s, s', t, n)
    requires forall m :: m in s.list && m != n ==> m in s'.list
    requires s'.loc[n] == s.loc[n] || s.loc[n] in {OnList, Flagged, Owned(t), Linking(t), Taken(t)}
    requires s'.next[n] == s.next[n] || (s.loc[n] == Linking(t) && Holders(s, n) == {})
    requires NodeOk(s', n) && ThreadOk(s', t)
    requires s'.head == First(s'.list) && Chain(s', s'.list)
    ensures Inv(s')
  {
    forall m | 0 <= m < |s.refs| ensures NodeOk(s', m) {
      if m != n {
        assert NodeOk(s, m) && !Works(s.pcs[t], m) && !Works(s'.pcs[t], m);
        NodeFrame(s, s', t, m);
      }
    }
    forall u | 0 <= u < |s.pcs| ensures ThreadOk(s', u) {
      if u != t { ThreadFrame(s, s', t, u); }
    }
  }

  /** The load of the head in `try_get` touches no node. */
  lemma GetLoadKeeps(s: State, t: Tid)
    requires Inv(s) && t < |s.pcs| && s.pcs[t].GetLoad?
    ensures Inv(Advance(s, t))
  {
    var s' := Advance(s, t);
    assert s' == s.(pcs := s.pcs[t := Loop(s.head)]);
    forall m | 0 <= m < |s.refs| ensures NodeOk(s', m) {
      assert NodeOk(s, m);
      NodeFrame(s, s', t, m);
    }
    forall u | 0 <= u < |s.pcs| ensures ThreadOk(s', u) {
      if u != t { ThreadFrame(s, s', t, u); }
    }
    ChainFrame(s, s');
  }

  /** The node whose fields the next operation of a thread reads or writes. */
  function Touched(p: Pc): Option<Node> {
    match p
    case Idle => None
    case AddFlag(n) => Some(n)
    case LinkLoad(n, _) => Some(n)
    case LinkNext(n, _, _) => Some(n)
    case LinkPublish(n, _, _) => Some(n)
    case LinkCas(n, _, _) => Some(n)
    case LinkRetract(n, _, _) => Some(n)
    case GetLoad => None
    case GetRefs(n) => Some(n)
    case GetIncrement(n, _) => Some(n)
    case GetNext(n) => Some(n)
    case GetCas(n, _) => Some(n)
    case GetFinish(n) => Some(n)
    case GetDrop(n, _) => Some(n)
  }

  /** The step of thread t writes no node but n. */
  ghost predicate Framed(s: State, s': State, t: Tid, n: Node)
    requires Shaped(s) && Shaped(s') && t < |s.pcs| && n < |s.refs|
  {
    && |s'.pcs| == |s.pcs| && |s'.refs| == |s.refs|
    && s'.pcs == s.pcs[t := s'.pcs[t]]
    && (forall m :: 0 <= m < |s.refs| && m != n ==>
         s'.refs[m] == s.refs[m] && s'.loc[m] == s.loc[m] && s'.next[m] == s.next[m])
    && (forall m :: m != n ==> !Works(s.pcs[t], m) && !Works(s'.pcs[t], m))
  }

  /** What a step needs to know about its own thread and the node it touches. */
  ghost predicate Local(s: State, t: Tid, n: Node) {
    && Shaped(s) && |s.pcs| + 1 < FLAG
    && t < |s.pcs| && n < |s.refs|
    && ThreadOk(s, t) && NodeOk(s, n)
    && Touched(s.pcs[t]) == Some(n)
    && s.head == First(s.list)
    && (s.head == Some(n) ==> s.loc[n] == OnList)
  }

  ghost predicate LocalAfter(s: State, t: Tid, n: Node)
    requires Local(s, t, n)
  {
    var s' := Advance(s, t);
    && Shaped(s') && ThreadOk(s', t) && NodeOk(s', n)
    && (s'.loc[n] == s.loc[n] || s.loc[n] in {OnList, Flagged, Owned(t), Linking(t), Taken(t)})
    && (s'.next[n] == s.next[n] || (s.loc[n] == Linking(t) && Holders(s, n) == {}))
    && (s.loc[n] == OnList ==> s'.loc[n] == OnList || (s.pcs[t].GetCas? && s.head == Some(n)))
  }

  /** Thread t's step touches node n alone and takes no other node off the list. */
  ghost predicate StepFramed(s: State, t: Tid, n: Node)
    requires Shaped(s) && t < |s.pcs| && n < |s.refs|
  {
    var s' := Advance(s, t);
    Shaped(s') && Framed(s, s', t, n) && forall m :: m in s.list && m != n ==> m in s'.list
  }

  lemma LinkFramed(s: State, t: Tid, n: Node)
    requires Shaped(s) && t < |s.pcs| && n < |s.refs| && Touched(s.pcs[t]) == Some(n) && s.head == First(s.list)
    requires s.pcs[t].LinkLoad? || s.pcs[t].LinkNext? || s.pcs[t].LinkPublish?
    ensures StepFramed(s, t, n)
  {
  }

  lemma GetFramed(s: State, t: Tid, n: Node)
    requires Shaped(s) && t < |s.pcs| && n < |s.refs| && Touched(s.pcs[t]) == Some(n) && s.head == First(s.list)
    requires s.pcs[t].GetRefs? || s.pcs[t].GetIncrement? || s.pcs[t].GetNext?
    ensures StepFramed(s, t, n)
  {
  }

  lemma TakeFramed(s: State, t: Tid, n: Node)
    requires Shaped(s) && t < |s.pcs| && n < |s.refs| && Touched(s.pcs[t]) == Some(n) && s.head == First(s.list)
    requires s.pcs[t].GetCas? || s.pcs[t].GetFinish? || s.pcs[t].GetDrop?
    ensures StepFramed(s, t, n)
  {
  }

  lemma FlagFramed(s: State, t: Tid, n: Node)
    requires Shaped(s) && t < |s.pcs| && n < |s.refs| && Touched(s.pcs[t]) == Some(n) && s.head == First(s.list)
    requires s.pcs[t].AddFlag? || s.pcs[t].LinkCas? || s.pcs[t].LinkRetract?
    ensures StepFramed(s, t, n)
  {
  }

  lemma AdvanceFrame(s: State, t: Tid, n: Node)
    requires Shaped(s) && t < |s.pcs| && n < |s.refs| && Touched(s.pcs[t]) == Some(n)
    requires s.head == First(s.list)
    ensures StepFramed(s, t, n)
  {
    match s.pcs[t]
    case GetRefs(_) => GetFramed(s, t, n);
    case GetIncrement(_, _) => GetFramed(s, t, n);
    case GetNext(_) => GetFramed(s, t, n);
    case GetCas(_, _) => TakeFramed(s, t, n);
    case GetFinish(_) => TakeFramed(s, t, n);
    case GetDrop(_, _) => TakeFramed(s, t, n);
    case AddFlag(_) => FlagFramed(s, t, n);
    case LinkCas(_, _, _) => FlagFramed(s, t, n);
    case LinkRetract(_, _, _) => FlagFramed(s, t, n);
    case _ => LinkFramed(s, t, n);
  }

  lemma AddLocal(s: State, t: Tid, n: Node)
    requires Local(s, t, n) && s.pcs[t].AddFlag?
    ensures LocalAfter(s, t, n)
  {
    var s' := Advance(s, t);
    AdvanceFrame(s, t, n);
    WordOf(s, n);
    HoldersStep(s, s', t, n);
    assert Holders(s', n) == Holders(s, n);
    NoWrap(s.refs[n], FLAG);
  }

  lemma LinkLocal(s: State, t: Tid, n: Node)
    requires Local(s, t, n) && (s.pcs[t].LinkLoad? || s.pcs[t].LinkNext? || s.pcs[t].LinkPublish?)
    ensures LocalAfter(s, t, n)
  {
    var s' := Advance(s, t);
    AdvanceFrame(s, t, n);
    WordOf(s, n);
    HoldersStep(s, s', t, n);
    assert Holders(s', n) == Holders(s, n);
  }

  lemma LinkCasLocal(s: State, t: Tid, n: Node)
    requires Local(s, t, n) && s.pcs[t].LinkCas?
    ensures LocalAfter(s, t, n)
  {
    var s' := Advance(s, t);
    AdvanceFrame(s, t, n);
    WordOf(s, n);
    HoldersStep(s, s', t, n);
    assert Holders(s', n) == Holders(s, n);
  }

  lemma LinkRetractLocal(s: State, t: Tid, n: Node)
    requires Local(s, t, n) && s.pcs[t].LinkRetract?
    ensures LocalAfter(s, t, n)
  {
    var s' := Advance(s, t);
    AdvanceFrame(s, t, n);
    WordOf(s, n);
    HoldersStep(s, s', t, n);
    assert Holders(s', n) == Holders(s, n);
    NoWrap(s.refs[n], FLAG - 1);
  }

  lemma GetRefsLocal(s: State, t: Tid, n: Node)
    requires Local(s, t, n) && (s.pcs[t].GetRefs? || s.pcs[t].GetNext?)
    ensures LocalAfter(s, t, n)
  {
    var s' := Advance(s, t);
    AdvanceFrame(s, t, n);
    WordOf(s, n);
    HoldersStep(s, s', t, n);
    assert Holders(s', n) == Holders(s, n);
  }

  lemma GetIncrementLocal(s: State, t: Tid, n: Node)
    requires Local(s, t, n) && s.pcs[t].GetIncrement?
    ensures LocalAfter(s, t, n)
  {
    var s' := Advance(s, t);
    AdvanceFrame(s, t, n);
    WordOf(s, n);
    HoldersStep(s, s', t, n);
    NoWrap(s.refs[n], 1);
    if s.refs[n] == s.pcs[t].refs {
      assert Holders(s', n) == Holders(s, n) + {t};
    } else {
      assert Holders(s', n) == Holders(s, n);
    }
  }

  lemma GetCasLocal(s: State, t: Tid, n: Node)
    requires Local(s, t, n) && s.pcs[t].GetCas?
    ensures LocalAfter(s, t, n)
  {
    var s' := Advance(s, t);
    AdvanceFrame(s, t, n);
    WordOf(s, n);
    HoldersStep(s, s', t, n);
    assert Holders(s', n) == Holders(s, n);
  }

  lemma GetFinishLocal(s: State, t: Tid, n: Node)
    requires Local(s, t, n) && s.pcs[t].GetFinish?
    ensures LocalAfter(s, t, n)
  {
    var s' := Advance(s, t);
    AdvanceFrame(s, t, n);
    WordOf(s, n);
    HoldersStep(s, s', t, n);
    assert Holders(s', n) == Holders(s, n) - {t};
    NoWrap(s.refs[n], -2);
  }

  lemma GetDropLast(s: State, t: Tid, n: Node)
    requires Local(s, t, n) && s.pcs[t].GetDrop? && s.refs[n] == FLAG + 1
    ensures LocalAfter(s, t, n)
  {
    var s' := Advance(s, t);
    AdvanceFrame(s, t, n);
    WordOf(s, n);
    HoldersStep(s, s', t, n);
    assert Holders(s', n) == Holders(s, n) - {t};
    NoWrap(s.refs[n], -1);
    assert s.loc[n] == Flagged;
  }

  lemma GetDropShared(s: State, t: Tid, n: Node)
    requires Local(s, t, n) && s.pcs[t].GetDrop? && s.refs[n] != FLAG + 1
    ensures LocalAfter(s, t, n)
  {
    var s' := Advance(s, t);
    AdvanceFrame(s, t, n);
    WordOf(s, n);
    HoldersStep(s, s', t, n);
    assert Holders(s', n) == Holders(s, n) - {t};
    NoWrap(s.refs[n], -1);
    assert s.loc[n] != Linking(t) && s.loc[n] != Taken(t);
  }

  lemma PopChain(s: State, s': State)
    requires |s.next| == |s.loc| == |s'.next| == |s'.loc| && Chain(s, s.list) && s.list != []
    requires s'.next == s.next && s'.list == s.list[1..]
    requires forall n :: 0 <= n < |s.loc| && n != s.list[0] ==> s'.loc[n] == s.loc[n]
    ensures Chain(s', s'.list) && First(s'.list) == s.next[s.list[0]]
  {
    var l := s'.list;
    assert PointsOn(s.next, s.list, 0);
    forall i | 0 <= i < |l| ensures PointsOn(s'.next, l, i) {
      assert PointsOn(s.next, s.list, i + 1);
    }
  }

  lemma PushChain(s: State, s': State, n: Node)
    requires |s.next| == |s.loc| == |s'.next| == |s'.loc| && Chain(s, s.list) && n < |s.loc|
    requires s'.next == s.next && s.next[n] == First(s.list) && s'.list == [n] + s.list
    requires s.loc[n] != OnList && s'.loc == s.loc[n := OnList]
    ensures Chain(s', s'.list)
  {
    var l := s'.list;
    forall i | 0 <= i < |l| ensures PointsOn(s'.next, l, i) {
      if i > 0 { assert PointsOn(s.next, s.list, i - 1); }
    }
  }

  lemma ListKeeps(s: State, t: Tid, n: Node)
    requires Local(s, t, n) && LocalAfter(s, t, n)
    requires s.head == First(s.list) && Chain(s, s.list)
    ensures var s' := Advance(s, t); s'.head == First(s'.list) && Chain(s', s'.list)
  {
    var s' := Advance(s, t);
    AdvanceFrame(s, t, n);
    if s.pcs[t].LinkCas? && s.head == s.pcs[t].seen {
      PushChain(s, s', n);
    } else if s.pcs[t].GetCas? && s.head == Some(n) {
      PopChain(s, s');
    } else {
      assert s'.list == s.list && s'.head == s.head;
      ChainFrame(s, s');
    }
  }

  lemma LocalKeeps(s: State, t: Tid, n: Node)
    requires Local(s, t, n)
    ensures LocalAfter(s, t, n)
  {
    match s.pcs[t]
    case AddFlag(_) => AddLocal(s, t, n);
    case LinkLoad(_, _) => LinkLocal(s, t, n);
    case LinkNext(_, _, _) => LinkLocal(s, t, n);
    case LinkPublish(_, _, _) => LinkLocal(s, t, n);
    case LinkCas(_, _, _) => LinkCasLocal(s, t, n);
    case LinkRetract(_, _, _) => LinkRetractLocal(s, t, n);
    case GetRefs(_) => GetRefsLocal(s, t, n);
    case GetIncrement(_, _) => GetIncrementLocal(s, t, n);
    case GetNext(_) => GetRefsLocal(s, t, n);
    case GetCas(_, _) => GetCasLocal(s, t, n);
    case GetFinish(_) => GetFinishLocal(s, t, n);
    case GetDrop(_, _) => if s.refs[n] == FLAG + 1 { GetDropLast(s, t, n); } else { GetDropShared(s, t, n); }
  }

  lemma AdvanceKeeps(s: State, t: Tid)
    requires Inv(s) && t < |s.pcs|
    ensures Inv(Advance(s, t))
  {
    assert ThreadOk(s, t);
    match Touched(s.pcs[t])
    case Some(n) =>
      assert NodeOk(s, n);
      AdvanceFrame(s, t, n);
      LocalKeeps(s, t, n);
      ListKeeps(s, t, n);
      StepKeeps(s, Advance(s, t), t, n);
    case None =>
      if s.pcs[t].GetLoad? { GetLoadKeeps(s, t); }
  }

  /** A step of another thread leaves an owned node with its owner. */
  lemma OwnedKept(s: State, t: Tid, u: Tid, n: Node)
    requires Inv(s) && t < |s.pcs| && n < |s.loc| && s.loc[n] == Owned(u) && u != t
    ensures |Advance(s, t).pcs| == |s.pcs| && |Advance(s, t).loc| == |s.loc| && Advance(s, t).loc[n] == Owned(u)
  {
    assert ThreadOk(s, t);
    match Touched(s.pcs[t])
    case Some(m) =>
      assert NodeOk(s, m);
      AdvanceFrame(s, t, m);
      LocalKeeps(s, t, m);
    case None =>
  }

  lemma BeginNodes(s: State, t: Tid, c: Call)
    requires Inv(s) && CanCall(s, t, c)
    ensures var s' := Begin(s, t, c); Shaped(s') && forall m :: 0 <= m < |s.refs| ==> NodeOk(s', m)
  {
    var s' := Begin(s, t, c);
    forall m | 0 <= m < |s.refs| ensures NodeOk(s', m) {
      assert NodeOk(s, m);
      assert s'.pcs == s.pcs[t := s'.pcs[t]];
      HoldersStep(s, s', t, m);
      assert Holders(s', m) == Holders(s, m);
    }
  }

  lemma BeginKeeps(s: State, t: Tid, c: Call)
    requires Inv(s) && CanCall(s, t, c)
    ensures Inv(Begin(s, t, c))
  {
    var s' := Begin(s, t, c);
    BeginNodes(s, t, c);
    forall u | 0 <= u < |s.pcs| ensures ThreadOk(s', u) {
      if u != t { ThreadFrame(s, s', t, u); }
    }
    ChainFrame(s, s');
  }

  // ------------------------------------------------------------- every run

  ghost predicate IsRun(run: seq<State>) {
    && run != [] && Init(run[0])
    && forall i :: 0 <= i < |run| - 1 ==> StepOk(run, i)
  }

  ghost predicate StepOk(run: seq<State>, i: nat)
    requires i < |run| - 1
  {
    Shaped(run[i]) && Next(run[i], run[i+1])
  }

  ghost predicate Reachable(s: State) {
    exists run :: IsRun(run) && run[|run|-1] == s
  }

  lemma InitInv(s: State)
    requires Init(s)
    ensures Inv(s)
  {
    forall n | 0 <= n < |s.refs| ensures NodeOk(s, n) {
      assert Holders(s, n) == {};
    }
  }

  lemma NextKeeps(s: State, s': State)
    requires Inv(s) && Next(s, s')
    ensures Inv(s')
  {
    if t :| 0 <= t < |s.pcs| && s' == Advance(s, t) {
      AdvanceKeeps(s, t);
    } else {
      var t, c :| CanCall(s, t, c) && s' == Begin(s, t, c);
      BeginKeeps(s, t, c);
    }
  }

  lemma {:induction false} RunInv(run: seq<State>, i: nat)
    requires IsRun(run) && i < |run|
    ensures Inv(run[i])
  {
    if i == 0 {
      InitInv(run[0]);
    } else {
      RunInv(run, i - 1);
      assert StepOk(run, i - 1);
      NextKeeps(run[i-1], run[i]);
    }
  }

  /** Every step of every thread, in every interleaving, keeps the invariant. */
  lemma Safety(s: State)
    requires Reachable(s)
    ensures Inv(s)
  {
    var run :| IsRun(run) && run[|run|-1] == s;
    RunInv(run, |run| - 1);
  }

  // ------------------------------------------------------------- what it means

  /** The k-th node reached from h along the `freeListNext` pointers in memory. */
  ghost function Follow(s: State, h: Option<Node>, k: nat): Option<Node>
    requires Shaped(s) && InRange(s, h)
    decreases k
  {
    if h.None? || k == 0 then h else Follow(s, s.next[h.value], k - 1)
  }

  lemma {:induction false} FollowChain(s: State, i: nat, k: nat)
    requires Inv(s) && i <= |s.list|
    ensures InRange(s, At(s.list, i)) && Follow(s, At(s.list, i), k) == At(s.list, i + k)
    decreases k
  {
    if i < |s.list| {
      assert PointsOn(s.next, s.list, i);
      if k > 0 { FollowChain(s, i + 1, k - 1); }
    }
  }

  /** Node n can be reached from `freeListHead` in memory. */
  ghost predicate Linked(s: State, n: Node)
    requires Shaped(s)
  {
    exists k: nat :: Follow(s, s.head, k) == Some(n)
  }

  lemma LinkedIsOnList(s: State, n: Node)
    requires Inv(s) && n < |s.loc|
    ensures Linked(s, n) <==> s.loc[n] == OnList
  {
    if s.loc[n] == OnList {
      assert NodeOk(s, n);
      var k :| 0 <= k < |s.list| && s.list[k] == n;
      FollowChain(s, 0, k);
    }
    if Linked(s, n) {
      var k: nat :| Follow(s, s.head, k) == Some(n);
      FollowChain(s, 0, k);
    }
  }

  /** Thread t alone decides what happens to node n next. */
  predicate Controls(s: State, t: Tid, n: Node)
    requires t < |s.pcs|
  {
    s.pcs[t] in {AddFlag(n), GetFinish(n)} || Unpublished(s.pcs[t], n) || Published(s.pcs[t], n)
  }

  /**
   In every run a node is in exactly one place: reachable from the head, owned,
   in the hands of one thread, or flagged for the last of its reference holders.
   Its word is exactly the list's reference plus the holders (plus the flag).
   */
  lemma Ownership(s: State, n: Node)
    requires Reachable(s) && Shaped(s) && n < |s.refs|
    ensures Linked(s, n) <==> s.loc[n] == OnList
    ensures forall t :: 0 <= t < |s.pcs| && Controls(s, t, n) ==>
      !Linked(s, n) && s.loc[n] in {Owned(t), Taken(t), Linking(t)}
    ensures forall t, u ::
      0 <= t < |s.pcs| && 0 <= u < |s.pcs| && Controls(s, t, n) && Controls(s, u, n) ==> t == u
    ensures s.refs[n] % FLAG == |Holders(s, n)| + (if Base(s, n) == 1 then 1 else 0)
    ensures s.refs[n] >= FLAG <==> Base(s, n) == FLAG
    ensures s.loc[n] == Flagged ==> Holders(s, n) != {}
    ensures
      || Linked(s, n) || s.loc[n].Owned? || Holders(s, n) != {}
      || exists t :: 0 <= t < |s.pcs| && Controls(s, t, n)
  {
    Safety(s);
    LinkedIsOnList(s, n);
    WordCounts(s, n);
    ControlIsExclusive(s, n);
  }

  lemma WordCounts(s: State, n: Node)
    requires Inv(s) && n < |s.refs|
    ensures s.refs[n] % FLAG == |Holders(s, n)| + (if Base(s, n) == 1 then 1 else 0)
    ensures s.refs[n] >= FLAG <==> Base(s, n) == FLAG
    ensures s.loc[n] == Flagged ==> Holders(s, n) != {}
  {
    assert NodeOk(s, n);
    WordOf(s, n);
  }

  lemma ControlIsExclusive(s: State, n: Node)
    requires Inv(s) && n < |s.refs|
    ensures forall t :: 0 <= t < |s.pcs| && Controls(s, t, n) ==> s.loc[n] in {Owned(t), Taken(t), Linking(t)}
    ensures s.loc[n] == OnList || s.loc[n].Owned? || Holders(s, n) != {} || exists t :: 0 <= t < |s.pcs| && Controls(s, t, n)
  {
    assert NodeOk(s, n);
    forall t | 0 <= t < |s.pcs| && Controls(s, t, n)
      ensures s.loc[n] in {Owned(t), Taken(t), Linking(t)}
    {
      assert ThreadOk(s, t);
    }
    if s.loc[n].Linking? || s.loc[n].Taken? {
      assert Controls(s, s.loc[n].who, n);
    }
  }

  lemma PopFollows(s: State, s': State)
    requires Inv(s) && Inv(s') && s.list != [] && s'.list == s.list[1..] && |s.refs| == |s'.refs|
    ensures forall k: nat :: Follow(s', s'.head, k) == Follow(s, s.head, k + 1)
    ensures forall m :: 0 <= m < |s.refs| ==> (Linked(s', m) <==> Linked(s, m) && m != s.list[0])
  {
    forall k: nat ensures Follow(s', s'.head, k) == Follow(s, s.head, k + 1) {
      FollowChain(s, 0, k + 1);
      FollowChain(s', 0, k);
    }
    forall m | 0 <= m < |s.refs| ensures Linked(s', m) <==> Linked(s, m) && m != s.list[0] {
      LinkedIsOnList(s, m);
      LinkedIsOnList(s', m);
      assert NodeOk(s, m) && NodeOk(s', m);
    }
  }

  /**
   No ABA: when the compare-exchange of `try_get` finds its expected head, the
   successor read earlier is still the successor, the flag is clear, and the
   list in memory loses exactly its first node.
   */
  lemma NoAba(s: State, t: Tid)
    requires Reachable(s) && Shaped(s)
    requires t < |s.pcs| && s.pcs[t].GetCas? && s.head == Some(s.pcs[t].head)
    ensures s.next[s.pcs[t].head] == s.pcs[t].next && s.refs[s.pcs[t].head] < FLAG
    ensures Shaped(Advance(s, t))
    ensures forall k: nat :: Follow(Advance(s, t), Advance(s, t).head, k) == Follow(s, s.head, k + 1)
    ensures forall m :: 0 <= m < |s.refs| ==>
      (Linked(Advance(s, t), m) <==> Linked(s, m) && m != s.pcs[t].head)
  {
    var n, s' := s.pcs[t].head, Advance(s, t);
    Safety(s);
    AdvanceKeeps(s, t);
    assert ThreadOk(s, t) && NodeOk(s, n);
    WordOf(s, n);
    PopFollows(s, s');
  }

  /** The assertion before the double decrement in `try_get` never fails. */
  lemma FlagClearAtFinish(s: State, t: Tid)
    requires Reachable(s) && Shaped(s) && t < |s.pcs| && s.pcs[t].GetFinish?
    ensures s.refs[s.pcs[t].head] < FLAG
  {
    Safety(s);
    assert ThreadOk(s, t) && NodeOk(s, s.pcs[t].head);
    WordOf(s, s.pcs[t].head);
  }

  /** A node that `try_get` is about to return has no owner yet. */
  lemma FinishIsTaken(s: State, t: Tid)
    requires Reachable(s) && Shaped(s) && t < |s.pcs| && s.pcs[t].GetFinish?
    ensures s.pcs[t].head < |s.loc| && s.loc[s.pcs[t].head] == Taken(t)
  {
    Safety(s);
    assert ThreadOk(s, t);
  }

  /** When no call is in progress nothing is lost: a node not owned is on the list. */
  lemma Quiescent(s: State, n: Node)
    requires Reachable(s) && Shaped(s) && n < |s.refs|
    requires forall t :: 0 <= t < |s.pcs| ==> s.pcs[t] == Idle
    ensures s.loc[n].Owned? <==> !Linked(s, n)
    ensures s.refs[n] == if Linked(s, n) then 1 else 0
  {
    Safety(s);
    LinkedIsOnList(s, n);
    assert NodeOk(s, n);
    assert Holders(s, n) == {};
  }

  // ------------------------------------------------------- a get without a node

  /** Inside `try_get`, also while it puts a flagged node back. */
  predicate Getting(p: Pc) {
    match p
    case Idle => false
    case AddFlag(_) => false
    case LinkLoad(_, r) => r.FromGet?
    case LinkNext(_, _, r) => r.FromGet?
    case LinkPublish(_, _, r) => r.FromGet?
    case LinkCas(_, _, r) => r.FromGet?
    case LinkRetract(_, _, r) => r.FromGet?
    case _ => true
  }

  /** Inside `try_get`, with a loaded head that was null. */
  predicate SawEmpty(p: Pc) {
    match p
    case LinkLoad(_, r) => r == FromGet(None)
    case LinkNext(_, _, r) => r == FromGet(None)
    case LinkPublish(_, _, r) => r == FromGet(None)
    case LinkCas(_, _, r) => r == FromGet(None)
    case LinkRetract(_, _, r) => r == FromGet(None)
    case GetDrop(_, h) => h.None?
    case _ => false
  }

  /** The step from s to s' gives thread t a node. */
  ghost predicate Gains(s: State, s': State, t: Tid) {
    exists n :: 0 <= n < |s.loc| && n < |s'.loc| && s.loc[n] != Owned(t) && s'.loc[n] == Owned(t)
  }

  /** One own step of a get: it stays in the call, or it ends with a node, or with a null head loaded now or before. */
  lemma GetStep(s: State, t: Tid)
    requires Inv(s) && t < |s.pcs| && Getting(s.pcs[t])
    ensures var s' := Advance(s, t);
      && (Getting(s'.pcs[t]) || s'.pcs[t].Idle?)
      && (SawEmpty(s'.pcs[t]) ==> SawEmpty(s.pcs[t]) || s.list == [])
      && (s'.pcs[t].Idle? ==> SawEmpty(s.pcs[t]) || s.list == [] || Gains(s, s', t))
  {
    if s.pcs[t].GetFinish? {
      var n := s.pcs[t].head;
      assert ThreadOk(s, t);
      assert s.loc[n] == Taken(t) && Advance(s, t).loc[n] == Owned(t);
    }
  }

  lemma OthersStep(s: State, s': State, t: Tid)
    requires Shaped(s) && Next(s, s') && t < |s.pcs| && !s.pcs[t].Idle?
    ensures |s'.pcs| == |s.pcs| && (s'.pcs[t] == s.pcs[t] || s' == Advance(s, t))
  {
    if u :| 0 <= u < |s.pcs| && s' == Advance(s, u) {
      assert s'.pcs == s.pcs[u := s'.pcs[u]];
    }
  }

  /** Thread t calls `try_get` at step a and has not returned before state k. */
  ghost predicate InGet(run: seq<State>, t: Tid, a: nat, k: nat) {
    && a < k < |run| && Shaped(run[a]) && CanCall(run[a], t, Get) && run[a+1] == Begin(run[a], t, Get)
    && forall i :: a < i < k ==> t < |run[i].pcs| && !run[i].pcs[t].Idle?
  }

  ghost predicate EmptyAt(run: seq<State>, a: nat, j: nat, k: nat) {
    a < j < k <= |run| && run[j].list == [] && run[j].head.None?
  }

  lemma {:induction false} GetRemembers(run: seq<State>, t: Tid, a: nat, k: nat)
    requires IsRun(run) && InGet(run, t, a, k) && t < |run[k].pcs| && !run[k].pcs[t].Idle?
    ensures Getting(run[k].pcs[t])
    ensures SawEmpty(run[k].pcs[t]) ==> exists j: nat :: EmptyAt(run, a, j, k)
    decreases k
  {
    if a + 1 < k {
      assert StepOk(run, k - 1);
      OthersStep(run[k-1], run[k], t);
      assert InGet(run, t, a, k - 1);
      GetRemembers(run, t, a, k - 1);
      RunInv(run, k - 1);
      GetStep(run[k-1], t);
      if SawEmpty(run[k].pcs[t]) {
        if SawEmpty(run[k-1].pcs[t]) {
          var j: nat :| EmptyAt(run, a, j, k - 1);
          assert EmptyAt(run, a, j, k);
        } else {
          assert EmptyAt(run, a, k - 1, k);
        }
      }
    }
  }

  /** A `try_get` that returns without a node: at a moment j of the call the list was empty. */
  lemma NullMeansEmpty(run: seq<State>, t: Tid, a: nat, b: nat) returns (j: nat)
    requires IsRun(run) && InGet(run, t, a, b) && b + 1 < |run|
    requires t < |run[b].pcs| && !run[b].pcs[t].Idle? && t < |run[b+1].pcs| && run[b+1].pcs[t].Idle?
    requires !Gains(run[b], run[b+1], t)
    ensures a < j <= b && run[j].list == [] && run[j].head.None?
  {
    GetRemembers(run, t, a, b);
    assert StepOk(run, b);
    OthersStep(run[b], run[b+1], t);
    RunInv(run, b);
    GetStep(run[b], t);
    if run[b].list == [] {
      j := b;
    } else {
      j :| EmptyAt(run, a, j, b);
    }
  }

  // ---------------------------------------------------------- a get on its own

  /** n steps of thread t in a row. */
  ghost function Alone(s: State, t: Tid, n: nat): State
    decreases n
  {
    if n == 0 || !Shaped(s) || t >= |s.pcs| then s else Alone(Advance(s, t), t, n - 1)
  }

  lemma AloneThree(s: State, t: Tid)
    requires Inv(s) && t < |s.pcs|
    ensures Inv(Advance(s, t)) && Inv(Advance(Advance(s, t), t)) && Inv(Advance(Advance(Advance(s, t), t), t))
    ensures Alone(s, t, 3) == Advance(Advance(Advance(s, t), t), t)
  {
    var s1 := Advance(s, t);
    AdvanceKeeps(s, t);
    var s2 := Advance(s1, t);
    AdvanceKeeps(s1, t);
    AdvanceKeeps(s2, t);
    assert Alone(s, t, 3) == Alone(s1, t, 2) == Alone(s2, t, 1) == Alone(Advance(s2, t), t, 0);
  }

  lemma {:induction false} AloneAdds(s: State, t: Tid, m: nat, n: nat)
    ensures Alone(s, t, m + n) == Alone(Alone(s, t, m), t, n)
    decreases m
  {
    if m > 0 && Shaped(s) && t < |s.pcs| {
      AloneAdds(Advance(s, t), t, m - 1, n);
    }
  }

  /** The first node's word counts at least the list's reference, and has room for one more. */
  lemma FirstWord(s: State)
    requires Inv(s) && s.list != []
    ensures var n := s.list[0];
      n < |s.refs| && s.head == Some(n) && s.refs[n] % FLAG != 0 && Add32(s.refs[n], 1) == s.refs[n] + 1
  {
    var n := s.list[0];
    assert NodeOk(s, n);
    WordOf(s, n);
    NoWrap(s.refs[n], 1);
  }

  /** The first three steps of a get from a list that is not empty: it holds a reference to the first node. */
  lemma GetHolds(s: State, t: Tid)
    requires Inv(s) && t < |s.pcs| && s.pcs[t].GetLoad? && s.list != []
    ensures var n := s.list[0];
      && n < |s.refs| && s.head == Some(n) && Inv(Alone(s, t, 3))
      && Alone(s, t, 3) == s.(refs := s.refs[n := s.refs[n] + 1], pcs := s.pcs[t := GetNext(n)])
  {
    AloneThree(s, t);
    FirstWord(s);
    var n, s1 := s.list[0], Advance(s, t);
    var p2 := GetIncrement(n, s.refs[n]);
    assert Advance(s1, t) == s.(pcs := s.pcs[t := p2]) by { assert s1.pcs[t := p2] == s.pcs[t := p2]; }
    assert s.pcs[t := p2][t := GetNext(n)] == s.pcs[t := GetNext(n)];
  }

  /** The next three: it takes that node off the list and owns it. */
  lemma GetTakes(s: State, t: Tid, n: Node)
    requires Inv(s) && t < |s.pcs| && s.pcs[t] == GetNext(n) && s.list != [] && s.head == Some(n)
    ensures var s' := Alone(s, t, 3);
      n < |s.loc| && s'.loc == s.loc[n := Owned(t)] && s'.list == s.list[1..] && s'.pcs == s.pcs[t := Idle]
  {
    AloneThree(s, t);
    var s1 := Advance(s, t);
    var s2 := Advance(s1, t);
    assert s2.loc == s.loc[n := Taken(t)] && s2.pcs[t] == GetFinish(n);
    assert s.loc[n := Taken(t)][n := Owned(t)] == s.loc[n := Owned(t)];
    assert s2.pcs[t := Idle] == s.pcs[t := Idle];
  }

  /**
   Undisturbed, `try_get` takes six steps to give its caller the first node of a
   list that is not empty, wherever other threads were stopped.
   */
  lemma GetAlone(s: State, t: Tid)
    requires Reachable(s) && t < |s.pcs| && s.pcs[t].GetLoad? && s.list != []
    ensures var s' := Alone(s, t, 6);
      s.list[0] < |s.loc| && s'.loc == s.loc[s.list[0] := Owned(t)] && s'.list == s.list[1..] && s'.pcs == s.pcs[t := Idle]
  {
    Safety(s);
    var n := s.list[0];
    GetHolds(s, t);
    GetTakes(Alone(s, t, 3), t, n);
    AloneAdds(s, t, 3, 3);
    assert s.pcs[t := GetNext(n)][t := Idle] == s.pcs[t := Idle];
  }
}
