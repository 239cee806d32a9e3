/** Products and remainders. */
module Arithmetic {

  lemma MulAtLeast(n: nat, size: nat)
    requires n > 0
    ensures n * size == size + (n - 1) * size && n * size >= size
  {
  }

  lemma ModIs(p: nat, q: nat, size: nat, r: nat)
    requires size > 0 && p == q * size + r && r < size
    ensures p % size == r
  {
    var q', r' := p / size, p % size;
    assert p == q' * size + r';
    assert (q - q') * size == r' - r;
    if q > q' { MulAtLeast(q - q', size); }
    if q' > q { MulAtLeast(q' - q, size); }
  }
}
