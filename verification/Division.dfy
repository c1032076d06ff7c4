/** Quotients and remainders by a divisor that is not a literal. */
module Division {

  lemma {:induction false} Apart(q: int, n: int, block: int)
    requires block > 0 && q > n
    ensures q * block >= n * block + block
    decreases q - n
  {
    assert q * block == (q - 1) * block + block;
    if q - 1 > n {
      Apart(q - 1, n, block);
    }
  }

  lemma DivMod(x: int, block: int)
    requires block > 0
    ensures x == x / block * block + x % block && 0 <= x % block < block
  {
  }

  lemma Divides(x: int, n: int, r: int, block: int)
    requires 0 <= r < block && x == n * block + r
    ensures x / block == n && x % block == r
  {
    DivMod(x, block);
    if x / block > n {
      Apart(x / block, n, block);
    } else if x / block < n {
      Apart(n, x / block, block);
    }
  }

  /** Taking one divisor away. */
  lemma DivStep(x: int, block: int)
    requires block > 0
    ensures (x - block) / block == x / block - 1 && (x - block) % block == x % block
  {
    DivMod(x, block);
    assert x - block == (x / block - 1) * block + x % block;
    Divides(x - block, x / block - 1, x % block, block);
  }
}
