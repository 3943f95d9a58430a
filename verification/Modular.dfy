/** Arithmetic of ring positions: remainders by a size that is not a literal. */
module Modular {

  /** C++ division of signed integers, which truncates toward zero. */
  function TruncDiv(a: int, b: nat): int
    requires b > 0
  {
    if a >= 0 then a / b else -((-a) / b)
  }

  lemma {:induction false} MultiplesApart(a: int, b: int, c: nat)
    ensures a < b ==> a * c + c <= b * c
    decreases b - a
  {
    if a + 1 < b {
      MultiplesApart(a, b - 1, c);
      assert (b - 1) * c + c == b * c;
    } else if a + 1 == b {
      assert (a + 1) * c == a * c + c;
    }
  }

  lemma DivModUnique(c: nat, q: int, r: nat)
    requires r < c
    ensures (q * c + r) / c == q && (q * c + r) % c == r
  {
    var n := q * c + r;
    var q', r' := n / c, n % c;
    assert n == q' * c + r';
    MultiplesApart(q, q', c);
    MultiplesApart(q', q, c);
  }

  // --------------------------------------------------------- remainders as %

  lemma RemShift(x: int, k: int, m: nat)
    requires m > 0
    ensures (x + k * m) % m == x % m
  {
    assert x == (x / m) * m + x % m;
    assert x + k * m == (x / m + k) * m + x % m;
    DivModUnique(m, x / m + k, x % m);
  }

  lemma RemDistinct(a: int, b: int, m: nat)
    requires a < b < a + m
    ensures a % m != b % m
  {
    var p, q := a / m, b / m;
    assert a == p * m + a % m && b == q * m + b % m;
    MultiplesApart(p, q, m);
    MultiplesApart(q, p, m);
  }

  lemma RemHalf(x: int, m: nat)
    requires m > 0
    ensures x % (2 * m) == 2 * ((x / 2) % m) + x % 2
  {
    var h := x / 2;
    var q, r := h / m, h % m;
    assert h == q * m + r && x == 2 * h + x % 2;
    assert x == q * (2 * m) + (2 * r + x % 2) by { assert 2 * (q * m) == q * (2 * m); }
    DivModUnique(2 * m, q, 2 * r + x % 2);
  }

  // -------------------------------------------- remainders by steps of the modulus

  /** The remainder of x by m, never negative: x moved into range by steps of m, so that all uses are linear. */
  function Mod(x: int, m: nat): (r: nat)
    requires m > 0
    ensures r < m
    decreases if x < 0 then -x else if x < m then 0 else x
  {
    if x < 0 then Mod(x + m, m) else if x < m then x else Mod(x - m, m)
  }

  lemma ModNear(x: int, m: nat)
    requires m > 0
    ensures 0 <= x < m ==> Mod(x, m) == x
    ensures 0 - m <= x < 0 ==> Mod(x, m) == x + m
  {
    if 0 - m <= x < 0 { assert Mod(x + m, m) == x + m; }
  }

  lemma {:induction false} ModIs(x: int, m: nat)
    requires m > 0
    ensures Mod(x, m) == x % m
    decreases if x < 0 then -x else if x < m then 0 else x
  {
    if x < 0 {
      ModIs(x + m, m);
      RemShift(x, 1, m);
    } else if x < m {
      DivModUnique(m, 0, x);
    } else {
      ModIs(x - m, m);
      RemShift(x - m, 1, m);
    }
  }

  /** How many steps of m a number is away from its remainder. */
  function Steps(x: int, m: nat): (q: int)
    requires m > 0
    ensures Mod(x, m) == x - q * m
  {
    ModIs(x, m);
    x / m
  }

  lemma ModShift(x: int, y: int, k: int, m: nat)
    requires m > 0 && x == y + k * m
    ensures Mod(x, m) == Mod(y, m)
  {
    RemShift(y, k, m);
    ModIs(x, m);
    ModIs(y, m);
  }

  /** Reducing first makes no difference. */
  lemma ModAdd(a: int, b: int, m: nat)
    requires m > 0
    ensures Mod(Mod(a, m) + b, m) == Mod(a + b, m)
  {
    var q := Steps(a, m);
    ModShift(a + b, Mod(a, m) + b, q, m);
  }

  /** Numbers less than m apart have different remainders. */
  lemma ModDistinct(a: int, b: int, m: nat)
    requires a < b < a + m
    ensures Mod(a, m) != Mod(b, m)
  {
    RemDistinct(a, b, m);
    ModIs(a, m);
    ModIs(b, m);
  }

  /** The lowest bit splits off a remainder by an even number. */
  lemma ModHalf(x: int, m: nat)
    requires m > 0
    ensures Mod(x, 2 * m) == 2 * Mod(x / 2, m) + x % 2
  {
    RemHalf(x, m);
    ModIs(x, 2 * m);
    ModIs(x / 2, m);
  }

  // ------------------------------------------------------------ laps of a ring

  /** How often k counts fully around a ring of m. */
  function Laps(k: nat, m: nat): nat
    requires m > 0
  {
    if k < m then 0 else Laps(k - m, m) + 1
  }

  /** The count that stands at position i in lap q. */
  function CountAt(i: nat, m: nat, q: nat): nat {
    if q == 0 then i else CountAt(i, m, q - 1) + m
  }

  /** Position and lap determine the count, and conversely. */
  lemma {:induction false} CountAtPosition(k: nat, m: nat)
    requires m > 0
    ensures CountAt(Mod(k, m), m, Laps(k, m)) == k
  {
    if k >= m { CountAtPosition(k - m, m); }
  }

  lemma {:induction false} PositionOfCount(i: nat, m: nat, q: nat)
    requires i < m
    ensures Mod(CountAt(i, m, q), m) == i && Laps(CountAt(i, m, q), m) == q
  {
    if q > 0 { PositionOfCount(i, m, q - 1); }
  }

  lemma {:induction false} CountAtGrows(i: nat, m: nat, p: nat, q: nat)
    requires p < q
    ensures CountAt(i, m, p) + m <= CountAt(i, m, q)
  {
    if p + 1 < q { CountAtGrows(i, m, p, q - 1); }
  }
}
