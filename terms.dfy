/** The sequence both circuits lay out: t(0) = a, t(1) = b and
    t(n) = t(n - 1) + t(n - 2). */
module Terms {

  function Term(a: int, b: int, n: nat): int
  {
    if n == 0 then a
    else if n == 1 then b
    else Term(a, b, n - 1) + Term(a, b, n - 2)
  }

  lemma Recurrence(a: int, b: int, n: nat)
    ensures Term(a, b, n + 2) == Term(a, b, n) + Term(a, b, n + 1)
  {
  }

  /** The tenth term, as a closed form in the two inputs. */
  lemma TenthTerm(a: int, b: int)
    ensures Term(a, b, 9) == 21 * a + 34 * b
  {
    assert Term(a, b, 2) == a + b;
    assert Term(a, b, 3) == a + 2 * b;
    assert Term(a, b, 4) == 2 * a + 3 * b;
    assert Term(a, b, 5) == 3 * a + 5 * b;
    assert Term(a, b, 6) == 5 * a + 8 * b;
    assert Term(a, b, 7) == 8 * a + 13 * b;
    assert Term(a, b, 8) == 13 * a + 21 * b;
  }

  /** Starting from 1 and 2, the tenth term is 89. */
  lemma TenthTermFromOneTwo()
    ensures Term(1, 2, 9) == 89
  {
    TenthTerm(1, 2);
  }
}
