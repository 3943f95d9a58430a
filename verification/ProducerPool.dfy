/**
 Where producers come from and where they go: `recycle_or_create_producer` reuses
 an inactive producer of the list, else draws a ticket for a preallocated one,
 else creates one, and pushes what is new on the lock-free list; the destructor
 destroys the listed producers and the part of the pool that was never drawn.
 One step is one atomic operation of one thread.

 Producers are numbered: 0 .. n-1 are the preallocated ones. `mover` (who is to
 put a producer on the list), `held` (who has an active producer) and `list`
 (oldest first) are history variables.
 */
module ProducerPool {
  import opened Common

  type Tid = nat
  type Pid = nat

  datatype Pc =
    | Idle
    | LoadList(ex: bool)
    | Inspect(ex: bool, ptr: Option<Pid>)
    | TryReuse(ex: bool, p: Pid)
    | CheckPool(ex: bool)
    | FetchTicket
    | Take(ticket: nat)
    | Activate(p: Pid)
    | Create(ex: bool)
    | CountIt(p: Pid)
    | LoadTail(p: Pid)
    | StoreNext(p: Pid, prev: Option<Pid>)
    | CasTail(p: Pid, prev: Option<Pid>)

  datatype State = State(
    n: nat,
    next: nat,
    pool: seq<Option<Pid>>,
    tail: Option<Pid>,
    link: map<Pid, Option<Pid>>,
    inactive: set<Pid>,
    explicit: set<Pid>,
    created: nat,
    count: nat,
    pcs: seq<Pc>,
    // history
    mover: map<Pid, Tid>,
    held: map<Pid, Tid>,
    list: seq<Pid>)

  // ---------------------------------------------------------------- steps

  function Link(link: map<Pid, Option<Pid>>, p: Pid): Option<Pid> {
    if p in link then link[p] else None
  }

  /** `ok` is false when an allocation or a weak compare-exchange fails by itself. */
  ghost function Advance(s: State, t: Tid, ok: bool): State
    requires t < |s.pcs| && |s.pool| == s.n
  {
    match s.pcs[t]
    case Idle => s
    case LoadList(ex) => s.(pcs := s.pcs[t := Inspect(ex, s.tail)])
    case Inspect(ex, None) => s.(pcs := s.pcs[t := CheckPool(ex)])
    case Inspect(ex, Some(p)) =>
      if p in s.inactive && (p in s.explicit) == ex then s.(pcs := s.pcs[t := TryReuse(ex, p)])
      else s.(pcs := s.pcs[t := Inspect(ex, Link(s.link, p))])
    case TryReuse(ex, p) =>
      if p in s.inactive then s.(inactive := s.inactive - {p}, held := s.held[p := t], pcs := s.pcs[t := Idle])
      else s.(pcs := s.pcs[t := Inspect(ex, Link(s.link, p))])
    case CheckPool(ex) =>
      s.(pcs := s.pcs[t := if !ex && s.next < s.n then FetchTicket else Create(ex)])
    case FetchTicket =>
      if s.next < s.n then
        s.(next := s.next + 1, mover := s.mover[s.next := t], pcs := s.pcs[t := Take(s.next)])
      else s.(next := s.next + 1, pcs := s.pcs[t := Create(false)])
    case Take(i) =>
      if i < s.n && s.pool[i].Some? then
        s.(pool := s.pool[i := None], pcs := s.pcs[t := Activate(s.pool[i].value)])
      else s
    case Activate(p) => s.(inactive := s.inactive - {p}, pcs := s.pcs[t := CountIt(p)])
    case Create(ex) =>
      if !ok then s.(pcs := s.pcs[t := Idle])
      else s.(created := s.created + 1, mover := s.mover[s.created := t],
              explicit := if ex then s.explicit + {s.created} else s.explicit,
              pcs := s.pcs[t := CountIt(s.created)])
    case CountIt(p) => s.(count := s.count + 1, pcs := s.pcs[t := LoadTail(p)])
    case LoadTail(p) => s.(pcs := s.pcs[t := StoreNext(p, s.tail)])
    case StoreNext(p, prev) => s.(link := s.link[p := prev], pcs := s.pcs[t := CasTail(p, prev)])
    case CasTail(p, prev) =>
      if ok && s.tail == prev then
        s.(tail := Some(p), list := s.list + [p], held := s.held[p := t], pcs := s.pcs[t := Idle])
      else s.(pcs := s.pcs[t := StoreNext(p, s.tail)])
  }

  /** A thread asks for a producer. */
  ghost function Ask(s: State, t: Tid, ex: bool): State
    requires t < |s.pcs|
  {
    s.(pcs := s.pcs[t := LoadList(ex)])
  }

  /** The holder of a producer gives it up for reuse. */
  ghost function Release(s: State, p: Pid): State {
    s.(inactive := s.inactive + {p}, held := s.held - {p})
  }

  ghost predicate Next(s: State, s': State) {
    |s.pool| == s.n &&
    ( || (exists t, ok :: 0 <= t < |s.pcs| && s' == Advance(s, t, ok))
      || (exists t, ex :: 0 <= t < |s.pcs| && s.pcs[t].Idle? && s' == Ask(s, t, ex))
      || (exists p :: p in s.held && s' == Release(s, p)))
  }

  /** After the constructor: the pool is full, its producers are inactive. */
  ghost predicate Init(s: State) {
    && s.next == 0 && s.tail == None && s.created == s.n && s.count == 0
    && s.pool == seq(s.n, i => Some(i))
    && (forall p: Pid :: p in s.inactive <==> p < s.n) && s.explicit == {}
    && s.link == map[] && s.mover == map[] && s.held == map[] && s.list == []
    && forall t :: 0 <= t < |s.pcs| ==> s.pcs[t] == Idle
  }

  // ------------------------------------------------------------ invariant

  /** The producer that only this thread may touch, on its way to the list. */
  function Work(pc: Pc): Option<Pid> {
    match pc
    case Take(i) => Some(i)
    case Activate(p) => Some(p)
    case CountIt(p) => Some(p)
    case LoadTail(p) => Some(p)
    case StoreNext(p, _) => Some(p)
    case CasTail(p, _) => Some(p)
    case _ => None
  }

  predicate Activated(pc: Pc) {
    pc.CountIt? || pc.LoadTail? || pc.StoreNext? || pc.CasTail?
  }

  ghost predicate NoDup(list: seq<Pid>) {
    forall i, j :: 0 <= i < j < |list| ==> list[i] != list[j]
  }

  /** The list as its pointers spell it, newest first. */
  ghost predicate ListOk(list: seq<Pid>, tail: Option<Pid>, link: map<Pid, Option<Pid>>) {
    && NoDup(list)
    && tail == (if list == [] then None else Some(list[|list|-1]))
    && forall i :: 0 <= i < |list| ==> LinkOk(list, link, i)
  }

  ghost predicate LinkOk(list: seq<Pid>, link: map<Pid, Option<Pid>>, i: nat)
    requires i < |list|
  {
    list[i] in link && link[list[i]] == if i == 0 then None else Some(list[i-1])
  }

  ghost predicate Working(mover: map<Pid, Tid>, pcs: seq<Pc>, p: Pid) {
    p in mover && mover[p] < |pcs| && Work(pcs[mover[p]]) == Some(p)
  }

  ghost predicate PoolSlotOk(next: nat, pool: seq<Option<Pid>>, mover: map<Pid, Tid>, pcs: seq<Pc>, i: nat)
    requires i < |pool|
  {
    && (pool[i] == Some(i) || pool[i] == None)
    && (i in mover <==> i < next)
    && (pool[i].Some? <==> i >= next || (mover[i] < |pcs| && pcs[mover[i]] == Take(i)))
  }

  /** A producer is on its way to the list in one thread's hands, or on it. */
  ghost predicate PlaceOk(mover: map<Pid, Tid>, pcs: seq<Pc>, list: seq<Pid>, p: Pid) {
    if p in mover then mover[p] < |pcs| && (p in list <==> !Working(mover, pcs, p))
    else p !in list
  }

  ghost predicate ThreadOk(s: State, t: Tid)
    requires t < |s.pcs|
  {
    && (Work(s.pcs[t]).Some? ==> var p := Work(s.pcs[t]).value; p in s.mover && s.mover[p] == t)
    && (Activated(s.pcs[t]) ==> s.pcs[t].p !in s.inactive)
    && match s.pcs[t]
       case Inspect(_, Some(p)) => p in s.list
       case TryReuse(ex, p) => p in s.list && (p in s.explicit) == ex
       case Take(i) => i < s.n
       case CasTail(p, prev) => p in s.link && s.link[p] == prev
       case _ => true
  }

  ghost predicate HeldOk(s: State, p: Pid) {
    && (p in s.held ==> p in s.list && s.held[p] < |s.pcs|)
    && (p in s.list ==> (p in s.held <==> p !in s.inactive))
  }

  function Counting(pc: Pc): nat {
    if pc.LoadTail? || pc.StoreNext? || pc.CasTail? then 1 else 0
  }

  function Fetching(pc: Pc): nat {
    if pc.FetchTicket? then 1 else 0
  }

  function Countings(pcs: seq<Pc>): seq<nat> {
    seq(|pcs|, i requires 0 <= i < |pcs| => Counting(pcs[i]))
  }

  function Fetchings(pcs: seq<Pc>): seq<nat> {
    seq(|pcs|, i requires 0 <= i < |pcs| => Fetching(pcs[i]))
  }

  ghost predicate Inv(s: State) {
    && |s.pool| == s.n <= s.created
    && ListOk(s.list, s.tail, s.link)
    && (forall i :: 0 <= i < s.n ==> PoolSlotOk(s.next, s.pool, s.mover, s.pcs, i))
    && (forall p :: p in s.mover ==> p < s.created)
    && (forall p :: s.n <= p < s.created ==> p in s.mover)
    && (forall p: Pid :: PlaceOk(s.mover, s.pcs, s.list, p))
    && (forall t :: 0 <= t < |s.pcs| ==> ThreadOk(s, t))
    && (forall p: Pid :: HeldOk(s, p))
    && (forall p :: p in s.inactive || p in s.explicit ==> p < s.created)
    && (forall p :: p in s.explicit ==> s.n <= p)
    && s.count == |s.list| + Sum(Countings(s.pcs))
    && (s.next <= s.n || s.next + Sum(Fetchings(s.pcs)) <= s.n + |s.pcs|)
  }

  // ------------------------------------------------------- every step keeps it

  lemma SumsUpdate(pcs: seq<Pc>, t: Tid, pc: Pc)
    requires t < |pcs|
    ensures Sum(Countings(pcs[t := pc])) == Sum(Countings(pcs)) - Counting(pcs[t]) + Counting(pc)
    ensures Sum(Fetchings(pcs[t := pc])) == Sum(Fetchings(pcs)) - Fetching(pcs[t]) + Fetching(pc)
  {
    assert Countings(pcs[t := pc]) == Countings(pcs)[t := Counting(pc)];
    assert Fetchings(pcs[t := pc]) == Fetchings(pcs)[t := Fetching(pc)];
    SumUpdate(Countings(pcs), t, Counting(pc));
    SumUpdate(Fetchings(pcs), t, Fetching(pc));
  }

  /** A step that moves no producer and only changes what thread t knows. */
  lemma LocalKeeps(s: State, t: Tid, pc: Pc)
    requires Inv(s) && t < |s.pcs| && ThreadOk(s.(pcs := s.pcs[t := pc]), t)
    requires Work(pc) == Work(s.pcs[t]) && !s.pcs[t].Take? && !pc.Take? && Counting(pc) == Counting(s.pcs[t])
    requires Fetching(pc) <= Fetching(s.pcs[t]) || s.next < s.n
    ensures Inv(s.(pcs := s.pcs[t := pc]))
  {
    var s' := s.(pcs := s.pcs[t := pc]);
    SumsUpdate(s.pcs, t, pc);
    forall p: Pid ensures PlaceOk(s'.mover, s'.pcs, s'.list, p) && HeldOk(s', p) {
      assert PlaceOk(s.mover, s.pcs, s.list, p) && HeldOk(s, p);
      assert Working(s.mover, s.pcs, p) <==> Working(s.mover, s'.pcs, p);
    }
    forall u | 0 <= u < |s.pcs| ensures ThreadOk(s', u) {
      assert ThreadOk(s, u);
    }
    forall i | 0 <= i < s.n ensures PoolSlotOk(s'.next, s'.pool, s'.mover, s'.pcs, i) {
      assert PoolSlotOk(s.next, s.pool, s.mover, s.pcs, i);
    }
  }

  /** The facts about threads other than t, after t has worked on producer p alone. */
  lemma OthersKeep(s: State, s': State, t: Tid, p: Pid)
    requires Inv(s) && t < |s.pcs| == |s'.pcs| && s'.pcs == s.pcs[t := s'.pcs[t]] && ThreadOk(s', t)
    requires forall u :: 0 <= u < |s.pcs| && u != t ==> Work(s.pcs[u]) != Some(p)
    requires forall q :: q in s.mover && q != p ==> q in s'.mover && s'.mover[q] == s.mover[q]
    requires forall q :: q in s.link && q != p ==> q in s'.link && s'.link[q] == s.link[q]
    requires forall q :: q in s'.inactive ==> q in s.inactive
    requires forall q :: q in s.list ==> q in s'.list && (q in s'.explicit <==> q in s.explicit)
    requires s'.n == s.n
    ensures forall u :: 0 <= u < |s.pcs| ==> ThreadOk(s', u)
  {
    forall u | 0 <= u < |s.pcs| ensures ThreadOk(s', u) {
      assert ThreadOk(s, u);
    }
  }

  /** Only thread t works on what it works on. */
  lemma WorkAlone(s: State, t: Tid, p: Pid)
    requires Inv(s) && t < |s.pcs| && Work(s.pcs[t]) == Some(p)
    ensures forall u :: 0 <= u < |s.pcs| && u != t ==> Work(s.pcs[u]) != Some(p)
    ensures p !in s.list && p in s.mover && s.mover[p] == t && p < s.created && p !in s.held
  {
    forall u | 0 <= u < |s.pcs| && Work(s.pcs[u]) == Some(p) ensures u == t {
      assert ThreadOk(s, u) && ThreadOk(s, t);
    }
    assert ThreadOk(s, t) && PlaceOk(s.mover, s.pcs, s.list, p) && HeldOk(s, p);
  }

  lemma TicketKeeps(s: State, t: Tid)
    requires Inv(s) && t < |s.pcs| && s.pcs[t].FetchTicket? && s.next < s.n
    ensures Inv(Advance(s, t, true))
  {
    var s' := s.(next := s.next + 1, mover := s.mover[s.next := t], pcs := s.pcs[t := Take(s.next)]);
    assert PoolSlotOk(s.next, s.pool, s.mover, s.pcs, s.next);
    assert PlaceOk(s.mover, s.pcs, s.list, s.next);
    SumsUpdate(s.pcs, t, Take(s.next));
    forall u | 0 <= u < |s.pcs| ensures Work(s.pcs[u]) != Some(s.next) { assert ThreadOk(s, u); }
    OthersKeep(s, s', t, s.next);
    forall p: Pid ensures PlaceOk(s'.mover, s'.pcs, s'.list, p) && HeldOk(s', p) {
      assert PlaceOk(s.mover, s.pcs, s.list, p) && HeldOk(s, p);
    }
    TicketSlots(s, s', t);
  }

  lemma TicketSlots(s: State, s': State, t: Tid)
    requires Inv(s) && t < |s.pcs| && s.pcs[t].FetchTicket? && s.next < s.n
    requires s' == s.(next := s.next + 1, mover := s.mover[s.next := t], pcs := s.pcs[t := Take(s.next)])
    ensures forall i :: 0 <= i < s.n ==> PoolSlotOk(s'.next, s'.pool, s'.mover, s'.pcs, i)
  {
    forall i | 0 <= i < s.n ensures PoolSlotOk(s'.next, s'.pool, s'.mover, s'.pcs, i) {
      assert PoolSlotOk(s.next, s.pool, s.mover, s.pcs, i);
    }
  }

  lemma {:induction false} SumAtMost(s: seq<nat>)
    requires forall i :: 0 <= i < |s| ==> s[i] <= 1
    ensures Sum(s) <= |s|
  {
    if s != [] { SumAtMost(s[..|s|-1]); }
  }

  /** A ticket past the pool only moves the counter. */
  lemma OvershootKeeps(s: State, t: Tid)
    requires Inv(s) && t < |s.pcs| && s.pcs[t].FetchTicket? && s.next >= s.n
    ensures Inv(Advance(s, t, true))
  {
    var s' := s.(next := s.next + 1, pcs := s.pcs[t := Create(false)]);
    SumsUpdate(s.pcs, t, Create(false));
    SumAtMost(Fetchings(s.pcs));
    OthersKeep(s, s', t, s.created) by {
      forall u | 0 <= u < |s.pcs| ensures Work(s.pcs[u]) != Some(s.created) { assert ThreadOk(s, u); }
    }
    forall p: Pid ensures PlaceOk(s'.mover, s'.pcs, s'.list, p) && HeldOk(s', p) {
      assert PlaceOk(s.mover, s.pcs, s.list, p) && HeldOk(s, p);
    }
    forall i | 0 <= i < s.n ensures PoolSlotOk(s'.next, s'.pool, s'.mover, s'.pcs, i) {
      assert PoolSlotOk(s.next, s.pool, s.mover, s.pcs, i);
    }
  }

  /** The slot of a drawn ticket is never empty. */
  lemma TakeFinds(s: State, t: Tid)
    requires Inv(s) && t < |s.pcs| && s.pcs[t].Take?
    ensures s.pcs[t].ticket < s.n && s.pool[s.pcs[t].ticket] == Some(s.pcs[t].ticket)
  {
    assert ThreadOk(s, t) && PoolSlotOk(s.next, s.pool, s.mover, s.pcs, s.pcs[t].ticket);
  }

  lemma TakeKeeps(s: State, t: Tid)
    requires Inv(s) && t < |s.pcs| && s.pcs[t].Take?
    ensures Inv(Advance(s, t, true))
  {
    var k := s.pcs[t].ticket;
    TakeFinds(s, t);
    WorkAlone(s, t, k);
    var s' := s.(pool := s.pool[k := None], pcs := s.pcs[t := Activate(k)]);
    SumsUpdate(s.pcs, t, Activate(k));
    OthersKeep(s, s', t, k);
    forall p: Pid ensures PlaceOk(s'.mover, s'.pcs, s'.list, p) && HeldOk(s', p) {
      assert PlaceOk(s.mover, s.pcs, s.list, p) && HeldOk(s, p);
      assert Working(s.mover, s.pcs, p) <==> Working(s.mover, s'.pcs, p);
    }
    forall i | 0 <= i < s.n ensures PoolSlotOk(s'.next, s'.pool, s'.mover, s'.pcs, i) {
      assert PoolSlotOk(s.next, s.pool, s.mover, s.pcs, i);
    }
  }

  lemma CreateKeeps(s: State, t: Tid)
    requires Inv(s) && t < |s.pcs| && s.pcs[t].Create?
    ensures Inv(Advance(s, t, true))
  {
    var c := s.created;
    var s' := Advance(s, t, true);
    SumsUpdate(s.pcs, t, CountIt(c));
    assert PlaceOk(s.mover, s.pcs, s.list, c);
    forall u | 0 <= u < |s.pcs| ensures Work(s.pcs[u]) != Some(c) { assert ThreadOk(s, u); }
    OthersKeep(s, s', t, c);
    forall p: Pid ensures PlaceOk(s'.mover, s'.pcs, s'.list, p) && HeldOk(s', p) {
      assert PlaceOk(s.mover, s.pcs, s.list, p) && HeldOk(s, p);
    }
    forall i | 0 <= i < s.n ensures PoolSlotOk(s'.next, s'.pool, s'.mover, s'.pcs, i) {
      assert PoolSlotOk(s.next, s.pool, s.mover, s.pcs, i);
    }
  }

  lemma ListFrame(list: seq<Pid>, tail: Option<Pid>, link: map<Pid, Option<Pid>>, link': map<Pid, Option<Pid>>, p: Pid)
    requires ListOk(list, tail, link) && p !in list
    requires forall q :: q in link && q != p ==> q in link' && link'[q] == link[q]
    ensures ListOk(list, tail, link')
  {
    forall i | 0 <= i < |list| ensures LinkOk(list, link', i) {
      assert LinkOk(list, link, i);
    }
  }

  /** Activating, counting or linking the producer p in hand. */
  lemma HandKeeps(s: State, t: Tid, p: Pid, s': State)
    requires Inv(s) && t < |s.pcs| && Work(s.pcs[t]) == Some(p) && !s.pcs[t].Take?
    requires s' == s.(pcs := s'.pcs, inactive := s'.inactive, link := s'.link, count := s'.count)
    requires |s'.pcs| == |s.pcs| && s'.pcs == s.pcs[t := s'.pcs[t]] && Work(s'.pcs[t]) == Some(p) && !s'.pcs[t].Take?
    requires ThreadOk(s', t) && s'.count == s.count - Counting(s.pcs[t]) + Counting(s'.pcs[t])
    requires s'.inactive == s.inactive || s'.inactive == s.inactive - {p}
    requires s'.link == s.link || (s'.pcs[t].CasTail? && s'.link == s.link[p := s'.pcs[t].prev])
    ensures Inv(s')
  {
    WorkAlone(s, t, p);
    SumsUpdate(s.pcs, t, s'.pcs[t]);
    ListFrame(s.list, s.tail, s.link, s'.link, p);
    OthersKeep(s, s', t, p);
    forall q: Pid ensures PlaceOk(s'.mover, s'.pcs, s'.list, q) && HeldOk(s', q) {
      assert PlaceOk(s.mover, s.pcs, s.list, q) && HeldOk(s, q);
      assert Working(s.mover, s.pcs, q) <==> Working(s.mover, s'.pcs, q);
    }
    forall i | 0 <= i < s.n ensures PoolSlotOk(s'.next, s'.pool, s'.mover, s'.pcs, i) {
      assert PoolSlotOk(s.next, s.pool, s.mover, s.pcs, i);
    }
  }

  /** The compare-exchange puts the producer in hand on top of the list. */
  lemma PushKeeps(s: State, t: Tid)
    requires Inv(s) && t < |s.pcs| && s.pcs[t].CasTail? && s.tail == s.pcs[t].prev
    ensures Inv(Advance(s, t, true))
  {
    var p := s.pcs[t].p;
    WorkAlone(s, t, p);
    assert ThreadOk(s, t);
    var s' := s.(tail := Some(p), list := s.list + [p], held := s.held[p := t], pcs := s.pcs[t := Idle]);
    SumsUpdate(s.pcs, t, Idle);
    forall i | 0 <= i < |s'.list| ensures LinkOk(s'.list, s.link, i) {
      if i < |s.list| { assert LinkOk(s.list, s.link, i); }
    }
    OthersKeep(s, s', t, p);
    forall q: Pid ensures PlaceOk(s'.mover, s'.pcs, s'.list, q) && HeldOk(s', q) {
      assert PlaceOk(s.mover, s.pcs, s.list, q) && HeldOk(s, q);
    }
    forall i | 0 <= i < s.n ensures PoolSlotOk(s'.next, s'.pool, s'.mover, s'.pcs, i) {
      assert PoolSlotOk(s.next, s.pool, s.mover, s.pcs, i);
    }
  }

  lemma ReuseKeeps(s: State, t: Tid)
    requires Inv(s) && t < |s.pcs| && s.pcs[t].TryReuse? && s.pcs[t].p in s.inactive
    ensures Inv(Advance(s, t, true))
  {
    var p, s' := s.pcs[t].p, Advance(s, t, true);
    assert ThreadOk(s, t) && PlaceOk(s.mover, s.pcs, s.list, p);
    SumsUpdate(s.pcs, t, Idle);
    forall u | 0 <= u < |s.pcs| ensures Work(s.pcs[u]) != Some(p) { assert ThreadOk(s, u); }
    OthersKeep(s, s', t, p);
    forall q: Pid ensures PlaceOk(s'.mover, s'.pcs, s'.list, q) && HeldOk(s', q) {
      assert PlaceOk(s.mover, s.pcs, s.list, q) && HeldOk(s, q);
    }
    forall i | 0 <= i < s.n ensures PoolSlotOk(s'.next, s'.pool, s'.mover, s'.pcs, i) {
      assert PoolSlotOk(s.next, s.pool, s.mover, s.pcs, i);
    }
  }

  lemma ReleaseKeeps(s: State, p: Pid)
    requires Inv(s) && p in s.held
    ensures Inv(Release(s, p))
  {
    var s' := Release(s, p);
    assert HeldOk(s, p) && PlaceOk(s.mover, s.pcs, s.list, p);
    forall u | 0 <= u < |s.pcs| ensures ThreadOk(s', u) {
      assert ThreadOk(s, u);
    }
    forall q: Pid ensures HeldOk(s', q) { assert HeldOk(s, q); }
  }

  /** The links of a listed producer stay on the list. */
  lemma LinkOnList(s: State, p: Pid)
    requires Inv(s) && p in s.list
    ensures Link(s.link, p).Some? ==> Link(s.link, p).value in s.list
  {
    var i :| 0 <= i < |s.list| && s.list[i] == p;
    assert LinkOk(s.list, s.link, i);
  }

  /** Looking for a producer to reuse. */
  lemma SearchKeeps(s: State, t: Tid, ok: bool)
    requires Inv(s) && t < |s.pcs| && (s.pcs[t].LoadList? || s.pcs[t].Inspect? || s.pcs[t].TryReuse?)
    ensures Inv(Advance(s, t, ok))
  {
    assert ThreadOk(s, t);
    match s.pcs[t]
    case LoadList(ex) => LocalKeeps(s, t, Inspect(ex, s.tail));
    case Inspect(ex, None) => LocalKeeps(s, t, CheckPool(ex));
    case Inspect(ex, Some(p)) =>
      if p in s.inactive && (p in s.explicit) == ex { LocalKeeps(s, t, TryReuse(ex, p)); } else { WalkOn(s, t, ex, p); }
    case TryReuse(ex, p) =>
      if p in s.inactive { ReuseKeeps(s, t); } else { WalkOn(s, t, ex, p); }
  }

  /** On to the next producer of the list. */
  lemma WalkOn(s: State, t: Tid, ex: bool, p: Pid)
    requires Inv(s) && t < |s.pcs| && (s.pcs[t] == Inspect(ex, Some(p)) || s.pcs[t] == TryReuse(ex, p))
    ensures Inv(s.(pcs := s.pcs[t := Inspect(ex, Link(s.link, p))]))
  {
    assert ThreadOk(s, t);
    LinkOnList(s, p);
    LocalKeeps(s, t, Inspect(ex, Link(s.link, p)));
  }

  /** Getting hold of a pooled or a new producer. */
  lemma ObtainKeeps(s: State, t: Tid, ok: bool)
    requires Inv(s) && t < |s.pcs| && (s.pcs[t].CheckPool? || s.pcs[t].FetchTicket? || s.pcs[t].Take? || s.pcs[t].Create?)
    ensures Inv(Advance(s, t, ok))
  {
    match s.pcs[t]
    case CheckPool(ex) => LocalKeeps(s, t, if !ex && s.next < s.n then FetchTicket else Create(ex));
    case FetchTicket => if s.next < s.n { TicketKeeps(s, t); } else { OvershootKeeps(s, t); }
    case Take(_) => TakeKeeps(s, t);
    case Create(_) => if ok { CreateKeeps(s, t); } else { LocalKeeps(s, t, Idle); }
  }

  /** Putting the producer in hand on the list. */
  lemma AddKeeps(s: State, t: Tid, ok: bool)
    requires Inv(s) && t < |s.pcs| && (s.pcs[t].Activate? || Activated(s.pcs[t]))
    ensures Inv(Advance(s, t, ok))
  {
    match s.pcs[t]
    case Activate(p) => ActivateKeeps(s, t, p);
    case CountIt(p) => CountItKeeps(s, t, p);
    case StoreNext(p, prev) => StoreNextKeeps(s, t, p, prev);
    case LoadTail(p) => ReloadKeeps(s, t, p);
    case CasTail(p, prev) => if ok && s.tail == prev { PushKeeps(s, t); } else { ReloadKeeps(s, t, p); }
  }

  lemma ActivateKeeps(s: State, t: Tid, p: Pid)
    requires Inv(s) && t < |s.pcs| && s.pcs[t] == Activate(p)
    ensures Inv(s.(inactive := s.inactive - {p}, pcs := s.pcs[t := CountIt(p)]))
  {
    assert ThreadOk(s, t);
    HandKeeps(s, t, p, s.(inactive := s.inactive - {p}, pcs := s.pcs[t := CountIt(p)]));
  }

  lemma CountItKeeps(s: State, t: Tid, p: Pid)
    requires Inv(s) && t < |s.pcs| && s.pcs[t] == CountIt(p)
    ensures Inv(s.(count := s.count + 1, pcs := s.pcs[t := LoadTail(p)]))
  {
    assert ThreadOk(s, t);
    HandKeeps(s, t, p, s.(count := s.count + 1, pcs := s.pcs[t := LoadTail(p)]));
  }

  lemma StoreNextKeeps(s: State, t: Tid, p: Pid, prev: Option<Pid>)
    requires Inv(s) && t < |s.pcs| && s.pcs[t] == StoreNext(p, prev)
    ensures Inv(s.(link := s.link[p := prev], pcs := s.pcs[t := CasTail(p, prev)]))
  {
    assert ThreadOk(s, t);
    HandKeeps(s, t, p, s.(link := s.link[p := prev], pcs := s.pcs[t := CasTail(p, prev)]));
  }

  /** The tail is loaded, or was loaded again by a failed exchange. */
  lemma ReloadKeeps(s: State, t: Tid, p: Pid)
    requires Inv(s) && t < |s.pcs| && (s.pcs[t] == LoadTail(p) || (s.pcs[t].CasTail? && s.pcs[t].p == p))
    ensures Inv(s.(pcs := s.pcs[t := StoreNext(p, s.tail)]))
  {
    assert ThreadOk(s, t);
    LocalKeeps(s, t, StoreNext(p, s.tail));
  }

  lemma AdvanceKeeps(s: State, t: Tid, ok: bool)
    requires Inv(s) && t < |s.pcs|
    ensures Inv(Advance(s, t, ok))
  {
    var pc := s.pcs[t];
    if pc.LoadList? || pc.Inspect? || pc.TryReuse? { SearchKeeps(s, t, ok); }
    else if pc.CheckPool? || pc.FetchTicket? || pc.Take? || pc.Create? { ObtainKeeps(s, t, ok); }
    else if !pc.Idle? { AddKeeps(s, t, ok); }
  }

  lemma NextKeeps(s: State, s': State)
    requires Inv(s) && Next(s, s')
    ensures Inv(s')
  {
    if t, ok :| 0 <= t < |s.pcs| && s' == Advance(s, t, ok) {
      AdvanceKeeps(s, t, ok);
    } else if t, ex :| 0 <= t < |s.pcs| && s.pcs[t].Idle? && s' == Ask(s, t, ex) {
      LocalKeeps(s, t, LoadList(ex));
    } else {
      var p :| p in s.held && s' == Release(s, p);
      ReleaseKeeps(s, p);
    }
  }

  // ------------------------------------------------------------- every run

  ghost predicate IsRun(run: seq<State>) {
    && run != [] && Init(run[0])
    && forall i :: 0 <= i < |run| - 1 ==> StepOk(run, i)
  }

  ghost predicate StepOk(run: seq<State>, i: nat)
    requires i < |run| - 1
  {
    Next(run[i], run[i+1])
  }

  ghost predicate Reachable(s: State) {
    exists run :: IsRun(run) && run[|run|-1] == s
  }

  lemma {:induction false} RunInv(run: seq<State>, i: nat)
    requires IsRun(run) && i < |run|
    ensures Inv(run[i])
  {
    if i == 0 {
      SumZero(Countings(run[0].pcs));
    } else {
      RunInv(run, i - 1);
      assert StepOk(run, i - 1);
      NextKeeps(run[i-1], run[i]);
    }
  }

  lemma Safety(s: State)
    requires Reachable(s)
    ensures Inv(s)
  {
    var run :| IsRun(run) && run[|run|-1] == s;
    RunInv(run, |run| - 1);
  }

  /** A producer is still in its pool slot. */
  ghost predicate Pooled(s: State, p: Pid) {
    p < |s.pool| && s.pool[p] == Some(p)
  }

  /** Thread t alone has taken the producer out of the pool, or created it, and has not pushed it yet. */
  ghost predicate InHand(s: State, t: Tid, p: Pid) {
    t < |s.pcs| && Work(s.pcs[t]) == Some(p) && !s.pcs[t].Take?
  }

  /**
   No producer is lost or doubled: each is in exactly one of the pool, one
   thread's hands, and the list, where it stands once.
   */
  lemma ExactlyOnePlace(s: State, p: Pid)
    requires Reachable(s) && p < s.created
    ensures Pooled(s, p) || p in s.list || exists t :: InHand(s, t, p)
    ensures !(Pooled(s, p) && p in s.list)
    ensures forall t :: InHand(s, t, p) ==> !Pooled(s, p) && p !in s.list
    ensures forall t, u :: InHand(s, t, p) && InHand(s, u, p) ==> t == u
    ensures NoDup(s.list)
  {
    Safety(s);
    assert PlaceOk(s.mover, s.pcs, s.list, p);
    if p < s.n { assert PoolSlotOk(s.next, s.pool, s.mover, s.pcs, p); }
    forall t | InHand(s, t, p) ensures p in s.mover && s.mover[p] == t { assert ThreadOk(s, t); }
    if p in s.mover && p !in s.list && !Pooled(s, p) {
      assert ThreadOk(s, s.mover[p]);
      assert InHand(s, s.mover[p], p);
    }
  }

  /**
   Over every step: who is to move a producer never changes, only that thread
   puts it on the list, and it stays there.
   */
  lemma MovedByOne(s: State, s': State, p: Pid)
    requires Reachable(s) && Next(s, s')
    ensures p in s.mover ==> p in s'.mover && s'.mover[p] == s.mover[p]
    ensures p in s.list ==> p in s'.list
    ensures p !in s.list && p in s'.list ==>
      p in s.mover && InHand(s, s.mover[p], p) && s'.pcs == s.pcs[s.mover[p] := Idle]
  {
    Safety(s);
    if t, ok :| 0 <= t < |s.pcs| && s' == Advance(s, t, ok) {
      MoverFacts(s, t);
      AdvanceMoves(s, t, ok, p);
    }
  }

  lemma MoverFacts(s: State, t: Tid)
    requires Inv(s) && t < |s.pcs|
    ensures s.next < s.n ==> s.next !in s.mover
    ensures s.created !in s.mover
    ensures s.pcs[t].CasTail? ==> s.pcs[t].p in s.mover && s.mover[s.pcs[t].p] == t
  {
    assert ThreadOk(s, t);
    if s.next < s.n { assert PoolSlotOk(s.next, s.pool, s.mover, s.pcs, s.next); }
  }

  lemma AdvanceMoves(s: State, t: Tid, ok: bool, p: Pid)
    requires t < |s.pcs| && |s.pool| == s.n && (s.next < s.n ==> s.next !in s.mover) && s.created !in s.mover
    requires s.pcs[t].CasTail? ==> s.pcs[t].p in s.mover && s.mover[s.pcs[t].p] == t
    ensures var s' := Advance(s, t, ok);
      && (p in s.mover ==> p in s'.mover && s'.mover[p] == s.mover[p])
      && (p in s.list ==> p in s'.list)
      && (p !in s.list && p in s'.list ==>
            p in s.mover && InHand(s, s.mover[p], p) && s'.pcs == s.pcs[s.mover[p] := Idle])
  {
  }

  /** A drawn ticket names a producer that is there, and no other thread has that ticket: the assertion holds. */
  lemma TicketIsExclusive(s: State, t: Tid, u: Tid)
    requires Reachable(s) && t < |s.pcs| && u < |s.pcs| && s.pcs[t].Take?
    ensures s.pcs[t].ticket < |s.pool| && s.pool[s.pcs[t].ticket] == Some(s.pcs[t].ticket)
    ensures Work(s.pcs[u]) == Work(s.pcs[t]) ==> u == t
  {
    Safety(s);
    TakeFinds(s, t);
    WorkAlone(s, t, s.pcs[t].ticket);
  }

  /** Tickets overshoot the pool by at most one per thread, so the counter does not run away. */
  lemma OvershootBounded(s: State)
    requires Reachable(s)
    ensures s.next <= s.n + |s.pcs|
  {
    Safety(s);
  }

  /** A reused producer was held by nobody and is of the kind asked for. */
  lemma ReuseIsExclusive(s: State, t: Tid)
    requires Reachable(s) && t < |s.pcs| && s.pcs[t].TryReuse? && s.pcs[t].p in s.inactive
    ensures s.pcs[t].p !in s.held && s.pcs[t].p in s.list && (s.pcs[t].p in s.explicit <==> s.pcs[t].ex)
  {
    Safety(s);
    assert ThreadOk(s, t) && HeldOk(s, s.pcs[t].p);
  }

  /** The published count is the length of the list, up to producers about to be pushed. */
  lemma CountIsExact(s: State)
    requires Reachable(s)
    ensures s.count == |s.list| + Sum(Countings(s.pcs))
    ensures (forall t :: 0 <= t < |s.pcs| ==> s.pcs[t] == Idle) ==> s.count == |s.list|
  {
    Safety(s);
    if forall t :: 0 <= t < |s.pcs| ==> s.pcs[t] == Idle { SumZero(Countings(s.pcs)); }
  }

  // -------------------------------------------------------------- every call

  /** Thread t asks for a producer of kind `ex` at step a and has not returned before state k. */
  ghost predicate InAsk(run: seq<State>, t: Tid, ex: bool, a: nat, k: nat) {
    && a < k < |run| && t < |run[a].pcs| && run[a].pcs[t].Idle? && run[a+1] == Ask(run[a], t, ex)
    && forall i :: a < i < k ==> t < |run[i].pcs| && !run[i].pcs[t].Idle?
  }

  lemma OwnStep(s: State, s': State, t: Tid)
    requires Next(s, s') && t < |s.pcs| && !s.pcs[t].Idle?
    ensures |s'.pcs| == |s.pcs| && (s'.pcs[t] == s.pcs[t] || exists ok :: s' == Advance(s, t, ok))
  {
    if u, ok :| 0 <= u < |s.pcs| && s' == Advance(s, u, ok) {
      PcsFrame(s, u, ok);
    }
  }

  lemma PcsFrame(s: State, t: Tid, ok: bool)
    requires |s.pool| == s.n && t < |s.pcs|
    ensures |Advance(s, t, ok).pcs| == |s.pcs|
    ensures forall u :: 0 <= u < |s.pcs| && u != t ==> Advance(s, t, ok).pcs[u] == s.pcs[u]
  {
    match s.pcs[t]
    case Idle =>
    case LoadList(_) =>
    case Inspect(_, ptr) => if ptr.None? {}
    case TryReuse(_, _) =>
    case CheckPool(_) =>
    case FetchTicket =>
    case Take(_) =>
    case Activate(_) =>
    case Create(_) =>
    case CountIt(_) =>
    case LoadTail(_) =>
    case StoreNext(_, _) =>
    case CasTail(_, _) =>
  }

  lemma AdvanceGrows(s: State, t: Tid, ok: bool)
    requires |s.pool| == s.n && t < |s.pcs|
    ensures var s' := Advance(s, t, ok);
      && s.list <= s'.list && s.created <= s'.created
      && (s'.explicit == s.explicit || s'.explicit == s.explicit + {s.created})
  {
    match s.pcs[t]
    case Idle =>
    case LoadList(_) =>
    case Inspect(_, ptr) => if ptr.None? {}
    case TryReuse(_, _) =>
    case CheckPool(_) =>
    case FetchTicket =>
    case Take(_) =>
    case Activate(_) =>
    case Create(_) =>
    case CountIt(_) =>
    case LoadTail(_) =>
    case StoreNext(_, _) =>
    case CasTail(_, _) =>
  }

  /** The list grows at its end, and the kind of an existing producer never changes. */
  lemma ListGrows(s: State, s': State)
    requires Next(s, s')
    ensures s.list <= s'.list && s.created <= s'.created
    ensures forall p: Pid :: p < s.created ==> (p in s'.explicit <==> p in s.explicit)
  {
    if t, ok :| 0 <= t < |s.pcs| && s' == Advance(s, t, ok) { AdvanceGrows(s, t, ok); }
  }

  // The kind of what a call obtains

  /** What thread t works on is of the kind it was asked for. */
  ghost predicate KindOk(s: State, pc: Pc, ex: bool) {
    match pc
    case Idle => true
    case LoadList(e) => e == ex
    case Inspect(e, _) => e == ex
    case TryReuse(e, _) => e == ex
    case CheckPool(e) => e == ex
    case Create(e) => e == ex
    case FetchTicket => !ex
    case Take(_) => !ex
    case _ => pc.p < s.created && (pc.p in s.explicit) == ex
  }

  /** The step gives thread t an active, listed producer of the kind asked for, which nobody held. */
  ghost predicate Obtains(s: State, s': State, t: Tid, ex: bool) {
    exists p: Pid :: p !in s.held && s'.held == s.held[p := t] && p in s'.list && p !in s'.inactive && (p in s'.explicit) == ex
  }

  lemma KindStep(s: State, t: Tid, ok: bool, ex: bool)
    requires Inv(s) && t < |s.pcs| && !s.pcs[t].Idle? && KindOk(s, s.pcs[t], ex)
    ensures var s' := Advance(s, t, ok);
      KindOk(s', s'.pcs[t], ex) && (s'.pcs[t].Idle? ==> Obtains(s, s', t, ex) || (s.pcs[t].Create? && !ok))
  {
    assert ThreadOk(s, t);
    match s.pcs[t]
    case LoadList(_) =>
    case Inspect(_, ptr) => if ptr.None? {}
    case TryReuse(e, p) => ReuseObtains(s, t, ok);
    case CheckPool(_) =>
    case FetchTicket =>
    case Take(i) => TakeFinds(s, t);
    case Activate(_) =>
    case Create(_) =>
    case CountIt(_) =>
    case LoadTail(_) =>
    case StoreNext(_, _) =>
    case CasTail(p, _) => PushObtains(s, t, ok, ex);
  }

  lemma ReuseObtains(s: State, t: Tid, ok: bool)
    requires Inv(s) && t < |s.pcs| && s.pcs[t].TryReuse?
    ensures var s' := Advance(s, t, ok);
      if s.pcs[t].p in s.inactive then Obtains(s, s', t, s.pcs[t].ex) && s'.pcs[t].Idle?
      else s'.pcs[t] == Inspect(s.pcs[t].ex, Link(s.link, s.pcs[t].p))
  {
    var p, s' := s.pcs[t].p, Advance(s, t, ok);
    assert ThreadOk(s, t) && HeldOk(s, p);
    if p in s.inactive { assert p !in s.held && s'.held == s.held[p := t]; }
  }

  lemma PushObtains(s: State, t: Tid, ok: bool, ex: bool)
    requires Inv(s) && t < |s.pcs| && s.pcs[t].CasTail? && KindOk(s, s.pcs[t], ex)
    ensures var s' := Advance(s, t, ok);
      KindOk(s', s'.pcs[t], ex) && (s'.pcs[t].Idle? ==> Obtains(s, s', t, ex))
  {
    var p, s' := s.pcs[t].p, Advance(s, t, ok);
    WorkAlone(s, t, p);
    assert ThreadOk(s, t);
    if s'.pcs[t].Idle? { assert p !in s.held && s'.held == s.held[p := t]; }
  }

  lemma {:induction false} AskKeepsKind(run: seq<State>, t: Tid, ex: bool, a: nat, k: nat)
    requires IsRun(run) && InAsk(run, t, ex, a, k) && t < |run[k].pcs|
    ensures KindOk(run[k], run[k].pcs[t], ex)
    decreases k
  {
    if a + 1 < k {
      assert StepOk(run, k - 1);
      OwnStep(run[k-1], run[k], t);
      assert InAsk(run, t, ex, a, k - 1);
      AskKeepsKind(run, t, ex, a, k - 1);
      RunInv(run, k - 1);
      ListGrows(run[k-1], run[k]);
      if run[k].pcs[t] != run[k-1].pcs[t] {
        var ok :| run[k] == Advance(run[k-1], t, ok);
        KindStep(run[k-1], t, ok, ex);
      }
    }
  }

  /**
   A call that returns has obtained a listed, active producer of the kind asked for,
   which nobody held before; or the allocation of a new one failed.
   */
  lemma AskObtains(run: seq<State>, t: Tid, ex: bool, a: nat, b: nat)
    requires IsRun(run) && InAsk(run, t, ex, a, b) && b + 1 < |run|
    requires t < |run[b].pcs| && !run[b].pcs[t].Idle? && t < |run[b+1].pcs| && run[b+1].pcs[t].Idle?
    ensures Obtains(run[b], run[b+1], t, ex) || (run[b].pcs[t] == Create(ex) && run[b+1] == run[b].(pcs := run[b].pcs[t := Idle]))
  {
    AskKeepsKind(run, t, ex, a, b);
    RunInv(run, b);
    assert StepOk(run, b);
    OwnStep(run[b], run[b+1], t);
    var ok :| run[b+1] == Advance(run[b], t, ok);
    KindStep(run[b], t, ok, ex);
  }

  // What a call passes over

  /** Producer p cannot be reused by a caller that wants kind `ex`. */
  ghost predicate Unusable(s: State, p: Pid, ex: bool) {
    p !in s.inactive || (p in s.explicit) != ex
  }

  /** At some moment of the call producer p could not be reused. */
  ghost predicate Passed(run: seq<State>, a: nat, k: nat, p: Pid, ex: bool) {
    exists j: nat :: a < j < k <= |run| && Unusable(run[j], p, ex)
  }

  /** Every producer at position i or later of the list as it was at state a has been passed. */
  ghost predicate PassedFrom(run: seq<State>, a: nat, k: nat, i: int, ex: bool)
    requires a < |run|
  {
    forall m: nat {:trigger run[a].list[m]} :: i <= m < |run[a].list| ==> Passed(run, a, k, run[a].list[m], ex)
  }

  /** How far the search of thread t has come at state k. */
  ghost predicate SearchOk(run: seq<State>, t: Tid, ex: bool, a: nat, k: nat)
    requires a < k < |run| && t < |run[k].pcs|
  {
    match run[k].pcs[t]
    case Idle => true
    case LoadList(_) => true
    case Inspect(_, Some(p)) => exists i :: At(run[k].list, i, p) && PassedFrom(run, a, k, i + 1, ex)
    case TryReuse(_, p) => exists i :: At(run[k].list, i, p) && PassedFrom(run, a, k, i + 1, ex)
    case _ => PassedFrom(run, a, k, 0, ex)
  }

  ghost predicate At(list: seq<Pid>, i: int, p: Pid) {
    0 <= i < |list| && list[i] == p
  }

  lemma PassedLater(run: seq<State>, a: nat, k: nat, i: int, ex: bool)
    requires a < k < |run| && PassedFrom(run, a, k, i, ex)
    ensures PassedFrom(run, a, k + 1, i, ex)
  {
    forall m: nat | i <= m < |run[a].list| ensures Passed(run, a, k + 1, run[a].list[m], ex) {
      var j: nat :| a < j < k <= |run| && Unusable(run[j], run[a].list[m], ex);
      assert a < j < k + 1 <= |run| && Unusable(run[j], run[a].list[m], ex);
    }
  }

  /** The search goes on from position i to the one before. */
  lemma PassOne(run: seq<State>, t: Tid, ex: bool, a: nat, k: nat, i: nat)
    requires a < k < |run| && run[a].list <= run[k].list && i < |run[k].list|
    requires PassedFrom(run, a, k, i + 1, ex) && Unusable(run[k], run[k].list[i], ex)
    ensures PassedFrom(run, a, k + 1, i, ex)
  {
    PassedLater(run, a, k, i + 1, ex);
    if i < |run[a].list| {
      assert run[a].list[i] == run[k].list[i];
      assert Passed(run, a, k + 1, run[a].list[i], ex);
    }
  }

  lemma SearchOn(run: seq<State>, t: Tid, ex: bool, a: nat, k: nat, p: Pid)
    requires a < k < |run| - 1 && t < |run[k].pcs| && Inv(run[k]) && run[a].list <= run[k].list && run[k].list <= run[k+1].list
    requires run[k].pcs[t] == Inspect(ex, Some(p)) || run[k].pcs[t] == TryReuse(ex, p)
    requires SearchOk(run, t, ex, a, k) && Unusable(run[k], p, ex)
    requires t < |run[k+1].pcs| && run[k+1].pcs[t] == Inspect(ex, Link(run[k].link, p))
    ensures SearchOk(run, t, ex, a, k + 1)
  {
    var i :| At(run[k].list, i, p) && PassedFrom(run, a, k, i + 1, ex);
    PassOne(run, t, ex, a, k, i);
    assert LinkOk(run[k].list, run[k].link, i);
    if i > 0 { assert At(run[k+1].list, i - 1, run[k].list[i-1]) && PassedFrom(run, a, k + 1, i - 1 + 1, ex); }
  }

  lemma SearchAside(run: seq<State>, t: Tid, ex: bool, a: nat, k: nat)
    requires a < k < |run| - 1 && t < |run[k].pcs| && SearchOk(run, t, ex, a, k) && run[k].list <= run[k+1].list
    requires t < |run[k+1].pcs| && !run[k].pcs[t].LoadList? && !run[k].pcs[t].Idle?
    requires
      || run[k+1].pcs[t] == run[k].pcs[t]
      || (run[k].pcs[t].Inspect? && run[k].pcs[t].ptr.Some? && run[k+1].pcs[t] == TryReuse(ex, run[k].pcs[t].ptr.value))
    ensures SearchOk(run, t, ex, a, k + 1)
  {
    var pc := run[k].pcs[t];
    if pc.TryReuse? || (pc.Inspect? && pc.ptr.Some?) {
      var p := if pc.TryReuse? then pc.p else pc.ptr.value;
      var i :| At(run[k].list, i, p) && PassedFrom(run, a, k, i + 1, ex);
      PassedLater(run, a, k, i + 1, ex);
      assert At(run[k+1].list, i, p);
    } else {
      PassedLater(run, a, k, 0, ex);
    }
  }

  lemma SearchStarts(run: seq<State>, t: Tid, ex: bool, a: nat, k: nat)
    requires a < k < |run| - 1 && t < |run[k].pcs| && Inv(run[k]) && run[a].list <= run[k].list
    requires run[k].pcs[t] == LoadList(ex) && |run[k].pool| == run[k].n && run[k+1] == Advance(run[k], t, true)
    ensures SearchOk(run, t, ex, a, k + 1)
  {
    var n := |run[k].list|;
    if n > 0 { assert At(run[k+1].list, n - 1, run[k].list[n-1]) && PassedFrom(run, a, k + 1, n - 1 + 1, ex); }
  }

  predicate Searching(pc: Pc) {
    pc.LoadList? || pc.Inspect? || pc.TryReuse?
  }

  lemma SearchStep(run: seq<State>, t: Tid, ex: bool, a: nat, k: nat, ok: bool)
    requires a < k < |run| - 1 && t < |run[k].pcs| && Inv(run[k]) && run[a].list <= run[k].list && run[k].list <= run[k+1].list
    requires SearchOk(run, t, ex, a, k) && KindOk(run[k], run[k].pcs[t], ex) && !run[k].pcs[t].Idle?
    requires run[k+1] == Advance(run[k], t, ok)
    ensures SearchOk(run, t, ex, a, k + 1)
  {
    var s, pc := run[k], run[k].pcs[t];
    if pc.LoadList? {
      SearchStarts(run, t, ex, a, k);
    } else if pc.TryReuse? {
      if pc.p !in s.inactive { SearchOn(run, t, ex, a, k, pc.p); }
    } else if pc.Inspect? && pc.ptr.Some? {
      var p := pc.ptr.value;
      if Unusable(s, p, ex) { SearchOn(run, t, ex, a, k, p); } else { SearchAside(run, t, ex, a, k); }
    } else {
      PassedLater(run, a, k, 0, ex);
      ObtainingStays(s, t, ok);
    }
  }

  /** After the search a call does not search again. */
  lemma ObtainingStays(s: State, t: Tid, ok: bool)
    requires |s.pool| == s.n && t < |s.pcs| && !s.pcs[t].Idle?
    requires !Searching(s.pcs[t]) || (s.pcs[t].Inspect? && s.pcs[t].ptr.None?)
    ensures !Searching(Advance(s, t, ok).pcs[t])
  {
    match s.pcs[t]
    case Inspect(_, ptr) =>
    case CheckPool(_) =>
    case FetchTicket =>
    case Take(_) =>
    case Activate(_) =>
    case Create(_) =>
    case CountIt(_) =>
    case LoadTail(_) =>
    case StoreNext(_, _) =>
    case CasTail(_, _) =>
  }

  lemma {:induction false} SearchRemembers(run: seq<State>, t: Tid, ex: bool, a: nat, k: nat)
    requires IsRun(run) && InAsk(run, t, ex, a, k) && t < |run[k].pcs|
    ensures SearchOk(run, t, ex, a, k) && run[a].list <= run[k].list
    decreases k
  {
    if a + 1 < k {
      assert StepOk(run, k - 1);
      OwnStep(run[k-1], run[k], t);
      assert InAsk(run, t, ex, a, k - 1);
      SearchRemembers(run, t, ex, a, k - 1);
      AskKeepsKind(run, t, ex, a, k - 1);
      RunInv(run, k - 1);
      ListGrows(run[k-1], run[k]);
      if run[k].pcs[t] == run[k-1].pcs[t] {
        if !run[k].pcs[t].LoadList? { SearchAside(run, t, ex, a, k - 1); }
      } else {
        var ok :| run[k] == Advance(run[k-1], t, ok);
        SearchStep(run, t, ex, a, k - 1, ok);
      }
    }
  }

  /**
   Recycling is complete: a call goes on to the pool, or to a new producer, only
   when every producer listed as it began was in use, or of the other kind, at some
   moment of the call.
   */
  lemma GoesOnWhenInUse(run: seq<State>, t: Tid, ex: bool, a: nat, k: nat, p: Pid)
    requires IsRun(run) && InAsk(run, t, ex, a, k) && t < |run[k].pcs|
    requires !run[k].pcs[t].Idle? && !Searching(run[k].pcs[t]) && p in run[a].list
    ensures Passed(run, a, k, p, ex)
  {
    SearchRemembers(run, t, ex, a, k);
    var m :| 0 <= m < |run[a].list| && run[a].list[m] == p;
    assert Passed(run, a, k, run[a].list[m], ex);
  }

  /** A new producer is created only for a caller that wants an explicit one, or when every ticket of the pool is drawn. */
  lemma CreatesWhenDrawn(s: State, t: Tid, ok: bool)
    requires |s.pool| == s.n && t < |s.pcs| && !s.pcs[t].Create?
    ensures Advance(s, t, ok).pcs[t].Create? ==> Advance(s, t, ok).pcs[t].ex || s.n <= s.next
  {
    match s.pcs[t]
    case Idle =>
    case LoadList(_) =>
    case Inspect(_, ptr) => if ptr.None? {}
    case TryReuse(_, _) =>
    case CheckPool(_) =>
    case FetchTicket =>
    case Take(_) =>
    case Activate(_) =>
    case CountIt(_) =>
    case LoadTail(_) =>
    case StoreNext(_, _) =>
    case CasTail(_, _) =>
  }

  // ------------------------------------------------------------ destruction

  /** What the destructor relies on once no thread uses the queue. */
  lemma AtRest(s: State)
    requires Reachable(s) && forall t :: 0 <= t < |s.pcs| ==> s.pcs[t] == Idle
    ensures ListOk(s.list, s.tail, s.link) && |s.pool| == s.n <= s.created
    ensures forall i :: s.next <= i < s.n ==> s.pool[i] == Some(i) && i !in s.list
    ensures forall p: Pid :: p in s.list ==> p < s.created
    ensures forall p :: 0 <= p < s.created && p !in s.list ==> s.next <= p < s.n
  {
    Safety(s);
    forall i | s.next <= i < s.n ensures s.pool[i] == Some(i) && i !in s.list {
      assert PoolSlotOk(s.next, s.pool, s.mover, s.pcs, i) && PlaceOk(s.mover, s.pcs, s.list, i);
    }
    forall p: Pid ensures p in s.list ==> p < s.created { assert PlaceOk(s.mover, s.pcs, s.list, p); }
    forall p | 0 <= p < s.created && p !in s.list ensures s.next <= p < s.n {
      assert PlaceOk(s.mover, s.pcs, s.list, p);
      if p < s.n { assert PoolSlotOk(s.next, s.pool, s.mover, s.pcs, p); }
    }
  }

  lemma NotLater(list: seq<Pid>, k: nat)
    requires NoDup(list) && 0 < k <= |list|
    ensures list[k-1] !in list[k..] && list[k-1..] == [list[k-1]] + list[k..]
  {
  }

  /** The first loop of the destructor walks the list by its pointers. */
  method DestroyListed(s: State) returns (destroyed: seq<Pid>)
    requires ListOk(s.list, s.tail, s.link)
    ensures NoDup(destroyed) && forall p: Pid :: p in destroyed <==> p in s.list
  {
    destroyed := [];
    var ptr := s.tail;
    ghost var k := |s.list|;
    while ptr.Some?
      invariant 0 <= k <= |s.list| && ptr == (if k == 0 then None else Some(s.list[k-1]))
      invariant NoDup(destroyed) && forall p: Pid :: p in destroyed <==> p in s.list[k..]
      decreases k
    {
      NotLater(s.list, k);
      assert LinkOk(s.list, s.link, k - 1);
      var next := s.link[ptr.value];
      destroyed := destroyed + [ptr.value];
      ptr, k := next, k - 1;
    }
  }

  /**
   The destructor: the listed producers, then the tickets that were never drawn.
   Every producer ever created is destroyed exactly once.
   */
  method Destroy(s: State) returns (destroyed: seq<Pid>)
    requires Reachable(s) && forall t :: 0 <= t < |s.pcs| ==> s.pcs[t] == Idle
    ensures NoDup(destroyed)
    ensures forall p: Pid :: p in destroyed <==> p < s.created
  {
    AtRest(s);
    destroyed := DestroyListed(s);
    var i := s.next;
    while i < s.n
      invariant s.next <= i && (i <= s.n || i == s.next)
      invariant NoDup(destroyed) && forall p: Pid :: p in destroyed <==> p in s.list || s.next <= p < i
    {
      destroyed := destroyed + [s.pool[i].value];
      i := i + 1;
    }
  }
}
