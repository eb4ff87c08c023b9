/** The bit operations of the code on words, as arithmetic on natural numbers. */
module Bits {
  const WORDS: nat := 0x1_0000_0000_0000_0000

  /** The value a 64-bit unsigned word keeps of an integer. */
  function ToWord(i: int): nat { i % WORDS }

  predicate PowerOfTwo(n: nat) {
    n == 1 || (n > 0 && n % 2 == 0 && PowerOfTwo(n / 2))
  }

  function And(a: nat, b: nat): nat {
    if a == 0 || b == 0 then 0 else (a % 2) * (b % 2) + 2 * And(a / 2, b / 2)
  }

  function Or(a: nat, b: nat): nat {
    if a == 0 then b else if b == 0 then a
    else (if a % 2 == 1 || b % 2 == 1 then 1 else 0) + 2 * Or(a / 2, b / 2)
  }

  lemma Uniquely(i: int, c: nat, q: int, r: nat)
    requires i == c * q + r && r < c
    ensures i % c == r && i / c == q
  {
    Apart(c, q, i / c);
    Apart(c, i / c, q);
  }

  lemma Apart(c: nat, q: int, q': int)
    ensures q < q' ==> c * q + c <= c * q'
  {
    if q < q' {
      Expand(c, q, q' - q - 1);
    }
  }

  lemma Expand(c: nat, q: int, d: nat)
    ensures c * (q + 1 + d) == c * q + c + c * d && c * d >= 0
  {
  }

  lemma HalfRemainder(i: nat, d: nat)
    requires d > 0
    ensures i % (2 * d) == i % 2 + 2 * ((i / 2) % d)
  {
    var q, r := (i / 2) / d, (i / 2) % d;
    assert i / 2 == d * q + r;
    Uniquely(i, 2 * d, q, i % 2 + 2 * r);
  }

  lemma AndOdd(i: nat, m: nat)
    ensures And(i, 2 * m + 1) == i % 2 + 2 * And(i / 2, m)
  {
    assert (2 * m + 1) / 2 == m && (2 * m + 1) % 2 == 1;
  }

  /** Masking with one less than a power of two is the remainder. */
  lemma {:induction false} MaskIsRemainder(i: nat, c: nat)
    requires PowerOfTwo(c)
    ensures And(i, c - 1) == i % c
    decreases c
  {
    if c > 1 {
      var d := c / 2;
      assert c == 2 * d;
      MaskIsRemainder(i / 2, d);
      AndOdd(i, d - 1);
      HalfRemainder(i, d);
    }
  }

  /** Testing the top bit of a word of two halves. */
  lemma {:induction false} TopBitIsCompare(w: nat, c: nat)
    requires PowerOfTwo(c) && w < 2 * c
    ensures And(w, c) == if c <= w then c else 0
    decreases c
  {
    if c > 1 && w > 0 {
      TopBitIsCompare(w / 2, c / 2);
    }
  }

  /** Setting a top bit that is not set adds it. */
  lemma {:induction false} SettingAdds(w: nat, c: nat)
    requires PowerOfTwo(c) && w < c
    ensures Or(w, c) == w + c
    decreases c
  {
    if c > 1 && w > 0 {
      SettingAdds(w / 2, c / 2);
    }
  }

  /** A power of two divides every larger one. */
  lemma {:induction false} Divides(c: nat, n: nat) returns (q: nat)
    requires PowerOfTwo(c) && PowerOfTwo(n) && c <= n
    ensures n == c * q
    decreases c
  {
    if c == 1 {
      q := n;
    } else {
      q := Divides(c / 2, n / 2);
      assert c == 2 * (c / 2) && n == 2 * (n / 2);
    }
  }

  lemma {:induction false} ProductOfPowers(c: nat, d: nat)
    requires PowerOfTwo(c) && PowerOfTwo(d)
    ensures PowerOfTwo(c * d)
    decreases c
  {
    if c > 1 {
      ProductOfPowers(c / 2, d);
      Double(c / 2, d);
    }
  }

  lemma Double(c: nat, d: nat)
    ensures (2 * c) * d == 2 * (c * d)
  {
  }

  lemma WordsArePowers()
    ensures PowerOfTwo(WORDS) && PowerOfTwo(WORDS / 2)
  {
    assert PowerOfTwo(256);
    ProductOfPowers(256, 256);
    ProductOfPowers(0x1_0000, 0x1_0000);
    ProductOfPowers(0x1_0000_0000, 0x1_0000_0000);
    assert WORDS > 1;
  }

  /** Wrapping to a multiple of `c` first does not change the remainder by `c`. */
  lemma RemainderTwice(i: int, c: nat, q: nat)
    requires c > 0 && q > 0 && c * q > 0
    ensures (i % (c * q)) % c == i % c
  {
    var n := c * q;
    var a, m := i / n, i % n;
    assert i == n * a + m && m == c * (m / c) + m % c;
    Regroup(c, q, a, m / c);
    Uniquely(i, c, q * a + m / c, m % c);
  }

  lemma Regroup(c: nat, q: nat, a: int, b: int)
    ensures c * q * a + c * b == c * (q * a + b)
  {
  }

  lemma MaskedWrap(i: int, c: nat, n: nat)
    requires PowerOfTwo(c) && PowerOfTwo(n) && c <= n
    ensures And(i % n, c - 1) == i % c
  {
    MaskIsRemainder(i % n, c);
    var q := Divides(c, n);
    assert q > 0 by {
      assert q == 0 ==> c * q == 0;
    }
    RemainderTwice(i, c, q);
  }

  /** The mask of the code, applied to a word, is the remainder of the integer, negative differences
      included. */
  lemma MaskedWord(i: int, c: nat)
    requires PowerOfTwo(c) && c <= WORDS
    ensures And(ToWord(i), c - 1) == i % c
  {
    WordsArePowers();
    MaskedWrap(i, c, WORDS);
  }
}
