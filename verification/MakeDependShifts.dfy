/** Shifts on unbounded integers, the sign kept on the right: when two in a row may be grouped either way. */
module MakeDependShifts {

  function Pow2(n: nat): (r: int)
    ensures r > n
  {
    if n == 0 then 1 else 2 * Pow2(n - 1)
  }

  function Left(x: int, n: nat): (r: int)
    ensures x >= 0 ==> r >= 0
  {
    Times(Pow2(n), 0, x);
    x * Pow2(n)
  }

  function Right(x: int, n: nat): (r: int)
    ensures x >= 0 ==> r >= 0
  {
    Split(x, Pow2(n));
    x / Pow2(n)
  }

  lemma Times(k: nat, a: int, b: int)
    ensures a <= b ==> k * a <= k * b
  {
  }

  lemma OneLess(k: int, a: int)
    ensures k * a == (k - 1) * a + a && a * (k - 1) == a * k - a
  {
  }

  // Quotient and remainder, and the sign of the quotient.
  lemma Split(x: int, d: int)
    requires d > 0
    ensures x == d * (x / d) + x % d && 0 <= x % d < d
    ensures x >= 0 ==> x / d >= 0
  {
    Times(d, x / d, -1);
  }

  lemma Divided(x: int, d: int, q: int, r: int)
    requires d > 0 && x == d * q + r && 0 <= r < d
    ensures x / d == q
  {
    Split(x, d);
    var k := x / d - q;
    assert d * k == d * (x / d) - d * q;
    Times(d, 1, k);
    Times(d, k, -1);
  }

  lemma {:induction false} Pow2Sum(a: nat, b: nat)
    ensures Pow2(a + b) == Pow2(a) * Pow2(b)
  {
    if a > 0 {
      Pow2Sum(a - 1, b);
      Pow2Next(a - 1);
      Pow2Next(a - 1 + b);
      hide Pow2;
      Regroup(2, Pow2(a - 1), Pow2(b));
    }
  }

  lemma Pow2Next(n: nat)
    ensures Pow2(n + 1) == 2 * Pow2(n)
  {
  }

  lemma Pow2Grows(a: nat, b: nat)
    requires a < b
    ensures 2 * Pow2(a) <= Pow2(b)
  {
    Pow2Sum(a, b - a);
    Times(Pow2(a), 2, Pow2(b - a));
  }

  // Shifting left by a or by b is the same only for 0 or when a is b.
  lemma LeftSame(x: int, a: nat, b: nat)
    ensures Left(x, a) == Left(x, b) <==> x == 0 || a == b
  {
    if a < b { Pow2Grows(a, b); }
    if b < a { Pow2Grows(b, a); }
    hide Pow2;
    Factor(x, Pow2(a), Pow2(b));
  }

  lemma Factor(x: int, m: int, n: int)
    ensures x * m == x * n <==> x == 0 || m == n
  {
    assert x * m - x * n == x * (m - n);
  }

  lemma LeftTwice(x: int, a: nat, b: nat)
    ensures Left(Left(x, a), b) == Left(x, a + b)
  {
    Pow2Sum(a, b);
    hide Pow2;
    Regroup(x, Pow2(a), Pow2(b));
  }

  lemma Regroup(x: int, m: int, n: int)
    ensures x * m * n == x * (m * n)
  {
  }

  // Shifting right twice is shifting once.
  lemma RightTwice(x: int, a: nat, b: nat)
    ensures Right(Right(x, a), b) == Right(x, a + b)
  {
    Pow2Sum(a, b);
    hide Pow2;
    Quotients(x, Pow2(a), Pow2(b));
  }

  lemma Quotients(x: int, m: nat, n: nat)
    requires m > 0 && n > 0
    ensures m * n > 0 && x / m / n == x / (m * n)
  {
    Times(m, 1, n);
    Split(x, m);
    Split(x / m, n);
    var q, s := x / m / n, (x / m) % n;
    assert m * (x / m) == m * (n * q) + m * s;
    Regroup(m, n, q);
    Times(m, 0, s);
    Times(m, s, n - 1);
    OneLess(n, m);
    Divided(x, m * n, q, m * s + x % m);
  }

  lemma RightLeft(x: int, a: nat)
    ensures Right(Left(x, a), a) == x
  {
    hide Pow2;
    assert x * Pow2(a) == Pow2(a) * x;
    Divided(x * Pow2(a), Pow2(a), x, 0);
  }

  // Only 0 and -1 stay what they are when they are shifted right.
  lemma RightFixed(q: int, k: nat)
    requires k > 0
    ensures Right(q, k) == q <==> q == 0 || q == -1
  {
    hide Pow2;
    var d := Pow2(k);
    Split(q, d);
    if q == -1 { Divided(-1, d, -1, d - 1); }
    if q == 0 { Divided(0, d, 0, 0); }
    if q / d == q {
      OneLess(d, q);
      Times(d - 1, 1, q);
      Times(d - 1, q, -2);
    }
  }

  lemma RightZero(x: int, n: nat)
    ensures Right(x, n) == 0 <==> 0 <= x < Pow2(n)
    ensures Right(x, n) == -1 <==> -Pow2(n) <= x < 0
  {
    hide Pow2;
    var d := Pow2(n);
    Split(x, d);
    if 0 <= x < d { Divided(x, d, 0, x); }
    if -d <= x < 0 { Divided(x, d, -1, x + d); }
  }

  lemma Shrinks(q: int, n: nat)
    ensures q >= 0 ==> 0 <= Right(q, n) <= q
    ensures q < 0 ==> q <= Right(q, n) < 0
  {
    hide Pow2;
    var d, r := Pow2(n), Right(q, n);
    Split(q, d);
    Times(d, 0, r);
    OneLess(d, r);
    Times(d - 1, 0, r);
    Times(d - 1, r, -1);
  }

  // What a shift makes of a count.
  lemma CountLeft(y: nat, z: nat)
    requires z > 0
    ensures Left(y, z) >= y && (Left(y, z) == y + z <==> y == 1 && z == 1)
  {
    if z >= 2 { Pow2Grows(z - 1, z); }
    hide Pow2;
    var p := Pow2(z);
    OneLess(p, y);
    Times(p - 1, 1, y);
    Times(p - 1, 0, y);
  }

  lemma CountRight(y: nat, z: nat)
    requires z > 0
    ensures y < z ==> Right(y, z) == 0
    ensures y >= z ==> (Right(y, z) == y - z <==> y == z || (y == 2 && z == 1))
    ensures Right(y, z) <= y
  {
    if z >= 2 { Pow2Grows(z - 1, z); }
    assert Pow2(1) == 2;
    Shrinks(y, z);
    RightZero(y, z);
    hide Pow2;
    if y > z {
      var d := y - z;
      var p := Pow2(z);
      Split(y, p);
      if Right(y, z) == d {
        OneLess(p, d);
        Times(p - 1, 1, d);
        Times(p - 1, 2, d);
      }
    }
  }

  function Shift(left: bool, x: int, n: nat): (r: int)
    ensures x >= 0 ==> r >= 0
  {
    if left then Left(x, n) else Right(x, n)
  }

  /** When x shifted by y and then by z may be grouped the other way. */
  predicate ShiftsAssociate(left1: bool, left2: bool, x: int, y: nat, z: nat) {
    || z == 0
    || (left1 && left2 && (x == 0 || (y == 1 && z == 1)))
    || (left1 && !left2 && (x == 0 || y == z || (y == 2 && z == 1) || (y < z && x == -1)))
    || (!left1 && left2 && 0 <= x < Pow2(y))
    || (!left1 && !left2 && -Pow2(Right(y, z)) <= x < Pow2(Right(y, z)))
  }

  lemma ShiftsRegrouped(left1: bool, left2: bool, x: int, y: nat, z: nat)
    ensures Shift(left1, x, Shift(left2, y, z)) == Shift(left2, Shift(left1, x, y), z)
            <==> ShiftsAssociate(left1, left2, x, y, z)
  {
    if z == 0 {
      NoShift(y);
      NoShift(Shift(left1, x, y));
    } else if left2 {
      CountLeft(y, z);
      if left1 {
        LeftTwice(x, y, z);
        LeftSame(x, Left(y, z), y + z);
      } else {
        RightThenLeft(x, y, z);
      }
    } else {
      CountRight(y, z);
      if left1 { LeftThenRight(x, y, z); } else { RightThenRight(x, y, z); }
    }
  }

  lemma NoShift(x: int)
    ensures Left(x, 0) == x && Right(x, 0) == x
  {
  }

  lemma RightThenLeft(x: int, y: nat, z: nat)
    requires z > 0
    ensures Right(x, Left(y, z)) == Left(Right(x, y), z) <==> 0 <= x < Pow2(y)
  {
    var q := Right(x, y);
    CountLeft(y, z);
    RightZero(x, y);
    RightTwice(x, y, Left(y, z) - y);
    Shrinks(q, Left(y, z) - y);
    LeftMore(q, z);
    hide Left, Right, Pow2;
  }

  lemma LeftMore(q: int, z: nat)
    requires z > 0
    ensures q > 0 ==> Left(q, z) > q
    ensures q < 0 ==> Left(q, z) < q
    ensures q == 0 ==> Left(q, z) == 0
  {
    hide Pow2;
    var p := Pow2(z);
    OneLess(p, q);
    Times(p - 1, 1, q);
    Times(p - 1, q, -1);
  }

  lemma LeftThenRight(x: int, y: nat, z: nat)
    requires z > 0
    ensures Left(x, Right(y, z)) == Right(Left(x, y), z)
            <==> x == 0 || y == z || (y == 2 && z == 1) || (y < z && x == -1)
  {
    CountRight(y, z);
    if y >= z {
      LeftTwice(x, y - z, z);
      RightLeft(Left(x, y - z), z);
      LeftSame(x, Right(y, z), y - z);
    } else {
      RightLeft(x, y);
      RightTwice(Left(x, y), y, z - y);
      RightFixed(x, z - y);
      NoShift(x);
    }
  }

  lemma RightThenRight(x: int, y: nat, z: nat)
    requires z > 0
    ensures Right(x, Right(y, z)) == Right(Right(x, y), z) <==> -Pow2(Right(y, z)) <= x < Pow2(Right(y, z))
  {
    var a := Right(y, z);
    CountRight(y, z);
    RightTwice(x, y, z);
    RightTwice(x, a, y + z - a);
    RightFixed(Right(x, a), y + z - a);
    RightZero(x, a);
  }
}
