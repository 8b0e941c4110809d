/** The arithmetic of the `integer` columns and of Go's and Java's 32-bit variables. */
module Int32 {

  const INT_MIN: int := -0x8000_0000
  const INT_MAX: int := 0x7fff_ffff

  predicate InRange(n: int) {
    INT_MIN <= n <= INT_MAX
  }

  /** The two's-complement value kept when `n` is stored in 32 bits. */
  function Wrap(n: int): (w: int)
    ensures InRange(w)
    ensures w == n <==> InRange(n)
    ensures exists k: int :: w == n + k * 0x1_0000_0000
  {
    var k := (n + 0x8000_0000) / 0x1_0000_0000;
    assert n - k * 0x1_0000_0000 == n + (-k) * 0x1_0000_0000;
    n - k * 0x1_0000_0000
  }

  /** Values that differ by a multiple of 2^32 and fit are the same value. */
  lemma CongruentInRange(a: int, b: int, k: int)
    requires InRange(a) && InRange(b)
    requires a == b + k * 0x1_0000_0000
    ensures a == b
  {
  }

  /** Wrapping every intermediate result is the same as wrapping once at the end. */
  lemma WrapStep(sum: int, term: int)
    ensures Wrap(Wrap(sum) + Wrap(term)) == Wrap(sum + term)
  {
    var i: int :| Wrap(sum) == sum + i * 0x1_0000_0000;
    var j: int :| Wrap(term) == term + j * 0x1_0000_0000;
    var both := Wrap(sum) + Wrap(term);
    var k: int :| Wrap(both) == both + k * 0x1_0000_0000;
    var l: int :| Wrap(sum + term) == sum + term + l * 0x1_0000_0000;
    CongruentInRange(Wrap(both), Wrap(sum + term), i + j + k - l);
  }

  /** The range with its numbers, and a non-negative value that is kept is the low 32 bits. */
  lemma LowBits(n: int)
    ensures InRange(n) <==> -2147483648 <= n <= 2147483647
    ensures Wrap(n) >= 0 <==> n % 4294967296 <= 2147483647
    ensures Wrap(n) >= 0 ==> Wrap(n) == n % 4294967296
  {
    var k: int :| Wrap(n) == n + k * 0x1_0000_0000;
    var q := n / 4294967296;
    var low := if n % 4294967296 <= 2147483647 then n % 4294967296 else n % 4294967296 - 4294967296;
    assert low == n + (-(if n % 4294967296 <= 2147483647 then q else q + 1)) * 0x1_0000_0000;
    CongruentInRange(Wrap(n), low, k + if n % 4294967296 <= 2147483647 then q else q + 1);
  }
}
