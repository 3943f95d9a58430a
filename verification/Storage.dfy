/**
 Elements in the blocks of one producer. Element x is constructed in its cell,
 later moved out and destroyed by the consumer that claimed x; blocks are used
 again meanwhile. `built` lists the values constructed so far, by index, and `got`
 tells what has been taken out.
 */
module Storage {
  import opened Common

  type Block = nat
  type Cell = (Block, nat)
  type Value(==, !new)

  /** The cell of element x, when block number b is hist[b]. */
  function CellOf(hist: seq<Block>, x: nat): Cell
    requires x / BLOCK_SIZE < |hist|
  {
    (hist[x / BLOCK_SIZE], x % BLOCK_SIZE)
  }

  /** Element x is in its cell. */
  ghost predicate Lives(hist: seq<Block>, built: seq<Value>, store: map<Cell, Value>, x: nat) {
    && x / BLOCK_SIZE < |hist| && x < |built|
    && CellOf(hist, x) in store && store[CellOf(hist, x)] == built[x]
  }

  /** Cell c holds an element that was constructed and not taken. */
  ghost predicate Tenant(hist: seq<Block>, built: seq<Value>, got: map<nat, Value>, c: Cell, x: nat) {
    x < |built| && x !in got && x / BLOCK_SIZE < |hist| && CellOf(hist, x) == c
  }

  ghost predicate Housed(hist: seq<Block>, built: seq<Value>, got: map<nat, Value>, c: Cell) {
    exists x: nat :: Tenant(hist, built, got, c, x)
  }

  /** The live objects are exactly the elements constructed and not taken, each in its cell. */
  ghost predicate Exact(hist: seq<Block>, built: seq<Value>, got: map<nat, Value>, store: map<Cell, Value>) {
    && (forall x: nat {:trigger Lives(hist, built, store, x)} :: x < |built| && x !in got ==> Lives(hist, built, store, x))
    && (forall c {:trigger Housed(hist, built, got, c)} :: c in store ==> Housed(hist, built, got, c))
  }

  /** Elements not taken have different cells. */
  ghost predicate Apart(hist: seq<Block>, got: map<nat, Value>, n: nat) {
    forall x: nat, y: nat :: x < y < n && x !in got && y !in got && y / BLOCK_SIZE < |hist| ==>
      CellOf(hist, x) != CellOf(hist, y)
  }

  lemma Extends(hist: seq<Block>, built: seq<Value>, got: map<nat, Value>, store: map<Cell, Value>, b: Block)
    requires Exact(hist, built, got, store)
    ensures Exact(hist + [b], built, got, store)
  {
    forall x: nat | x < |built| && x !in got ensures Lives(hist + [b], built, store, x) {
      assert Lives(hist, built, store, x);
    }
    forall c | c in store ensures Housed(hist + [b], built, got, c) {
      assert Housed(hist, built, got, c);
      var x: nat :| Tenant(hist, built, got, c, x);
      assert Tenant(hist + [b], built, got, c, x);
    }
  }

  /** Constructing the next element: its cell is raw storage, and nothing else is touched. */
  lemma Constructs(hist: seq<Block>, built: seq<Value>, got: map<nat, Value>, store: map<Cell, Value>, v: Value)
    requires Exact(hist, built, got, store) && Apart(hist, got, |built| + 1)
    requires |built| / BLOCK_SIZE < |hist| && |built| !in got
    ensures CellOf(hist, |built|) !in store
    ensures Exact(hist, built + [v], got, store[CellOf(hist, |built|) := v])
  {
    var n := |built|;
    var cell := CellOf(hist, n);
    var store', built' := store[cell := v], built + [v];
    assert cell in store ==> Housed(hist, built, got, cell);
    forall x: nat | x < |built'| && x !in got ensures Lives(hist, built', store', x) {
      if x < n { assert Lives(hist, built, store, x); }
    }
    forall c | c in store' ensures Housed(hist, built', got, c) {
      if c == cell {
        assert Tenant(hist, built', got, c, n);
      } else {
        assert Housed(hist, built, got, c);
        var x: nat :| Tenant(hist, built, got, c, x);
        assert Tenant(hist, built', got, c, x);
      }
    }
  }

  /** Taking element x: a live object with its value is moved from and destroyed, and no other. */
  lemma Takes(hist: seq<Block>, built: seq<Value>, got: map<nat, Value>, store: map<Cell, Value>, x: nat)
    requires Exact(hist, built, got, store) && Apart(hist, got, |built|)
    requires x < |built| && x !in got
    ensures Lives(hist, built, store, x)
    ensures Exact(hist, built, got[x := built[x]], store - {CellOf(hist, x)})
  {
    assert Lives(hist, built, store, x);
    var cell := CellOf(hist, x);
    var store', got' := store - {cell}, got[x := built[x]];
    forall y: nat | y < |built| && y !in got' ensures Lives(hist, built, store', y) {
      assert Lives(hist, built, store, y);
      assert CellOf(hist, y) != cell;
    }
    forall c | c in store' ensures Housed(hist, built, got', c) {
      assert Housed(hist, built, got, c);
      var y: nat :| Tenant(hist, built, got, c, y);
      assert Tenant(hist, built, got', c, y);
    }
  }
}
