/** Java's integer division, remainder and numeric casts, written out over Dafny's
    unbounded int and exact real (Dafny's own / and % are Euclidean). */
module JavaNum {

  function Abs(x: int): nat { if x < 0 then -x else x }

  /** Java `a / b` on int: the quotient truncated toward zero. */
  function Div(a: int, b: int): (q: int)
    requires b != 0
    ensures Abs(q) * Abs(b) <= Abs(a) < (Abs(q) + 1) * Abs(b)
    ensures q == 0 || ((q > 0) <==> ((a > 0) == (b > 0)))
  {
    var m := Abs(a) / Abs(b);
    if (a >= 0) == (b > 0) then m else -m
  }

  /** Java `a % b` on int: the remainder takes the sign of the dividend. */
  function Rem(a: int, b: int): (r: int)
    requires b != 0
    ensures a == Div(a, b) * b + r
    ensures Abs(r) < Abs(b)
    ensures r != 0 ==> ((r > 0) <==> (a > 0))
  {
    DivRemSplit(a, b);
    var m := Abs(a) % Abs(b);
    if a >= 0 then m else -m
  }

  lemma DivRemSplit(a: int, b: int)
    requires b != 0
    ensures a == Div(a, b) * b + (if a >= 0 then Abs(a) % Abs(b) else -(Abs(a) % Abs(b)))
  {
    var q, r := Abs(a) / Abs(b), Abs(a) % Abs(b);
    var p := q * Abs(b);
    assert Abs(a) == p + r;
    assert q * b == if b > 0 then p else -p;
    assert (-q) * b == -(q * b);
  }

  /** The `(int)` cast of a double: truncation toward zero. */
  function Trunc(x: real): (n: int)
    ensures Abs(n) as real <= (if x < 0.0 then -x else x) < Abs(n) as real + 1.0
    ensures n == 0 || ((n > 0) <==> (x > 0.0))
  {
    if x >= 0.0 then x.Floor else -((-x).Floor)
  }

  /** Math.round of a double: the nearest integer, halves rounded up. */
  function Round(x: real): (n: int)
    ensures n as real - 0.5 <= x < n as real + 0.5
  {
    (x + 0.5).Floor
  }
}
