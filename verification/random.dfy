/** Draws of `Math.random()`: a real number in [0, 1), and the index `Math.floor(rnd * n)` made of it. */
module Random {

  predicate IsDraw(rnd: real) {
    0.0 <= rnd < 1.0
  }

  predicate AreDraws(draws: seq<real>) {
    forall i :: 0 <= i < |draws| ==> IsDraw(draws[i])
  }

  /** `Math.floor(rnd * n)` for a draw `rnd` of `Math.random()`. */
  function Scale(rnd: real, n: nat): (i: int)
    requires IsDraw(rnd)
    ensures n > 0 ==> 0 <= i < n
    ensures n == 0 ==> i == 0
  {
    var x := rnd * n as real;
    assert n > 0 ==> x < n as real by {
      if n > 0 {
        assert n as real - x == (1.0 - rnd) * n as real;
        assert (1.0 - rnd) * n as real > 0.0;
      }
    }
    x.Floor
  }

  /** The draw `pos / n` lands in slot `pos` of `n` equal slots. */
  function SlotStart(pos: nat, n: nat): (rnd: real)
    requires pos < n
    ensures IsDraw(rnd) && Scale(rnd, n) == pos
  {
    var rnd := pos as real / n as real;
    assert rnd * n as real == pos as real;
    assert rnd < 1.0 by {
      assert pos as real < n as real;
    }
    rnd
  }
}
