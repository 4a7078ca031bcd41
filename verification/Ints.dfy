/** Order facts about multiples of a positive integer. */
module Ints {
  function Min(x: int, y: int): (r: int)
    ensures r <= x && r <= y && (r == x || r == y)
  {
    if x <= y then x else y
  }

  lemma ProductOrder(n: int, x: int, y: int)
    requires n > 0
    ensures x < y <==> x * n < y * n
    ensures x < y ==> x * n + n <= y * n
  {
    if x < y { assert (x + 1) * n <= y * n; }
    if y < x { assert (y + 1) * n <= x * n; }
  }

  // Appending a digit: order and equality are decided by the leading part first.
  lemma DigitOrder(n: int, q: int, m: int, q': int, m': int)
    requires 0 <= m < n && 0 <= m' < n
    ensures q * n + m < q' * n + m' <==> q < q' || (q == q' && m < m')
    ensures q * n + m == q' * n + m' <==> q == q' && m == m'
  {
    ProductOrder(n, q, q');
    ProductOrder(n, q', q);
  }

  lemma DivisionUnique(q: int, m: int, n: int)
    requires 0 <= m < n
    ensures (q * n + m) / n == q && (q * n + m) % n == m
  {
    var x := q * n + m;
    DigitOrder(n, x / n, x % n, q, m);
  }

  lemma DivisionBounds(x: int, n: int, p: int)
    requires n > 0
    ensures 0 <= x / n < p <==> 0 <= x < p * n
    ensures x / n * n + x % n == x
  {
    DigitOrder(n, x / n, x % n, p, 0);
    DigitOrder(n, x / n, x % n, 0, 0);
  }

  // How many pieces of at most m cover n.
  function Pieces(n: int, m: int): int
    requires m > 0
  {
    (n + m - 1) / m
  }

  lemma PiecesStep(n: int, m: int)
    requires m > 0
    ensures 0 < n <= m ==> Pieces(n, m) == 1
    ensures Pieces(n, m) == 1 + Pieces(n - m, m)
  {
    var x := n - m + m - 1;
    DivisionUnique(x / m + 1, x % m, m);
    assert (x / m + 1) * m + x % m == x + m;
    if 0 < n <= m { DivisionUnique(1, n - 1, m); }
  }
}
