/** Numbers as the machine's 64-bit words hold them. */
module Words {
  const WORD: int := 0x1_0000_0000_0000_0000
  const HALF: int := 0x8000_0000_0000_0000

  /** A number as `size_t`. */
  function Word(x: int): (w: nat)
    ensures w < WORD
  {
    x % 0x1_0000_0000_0000_0000
  }

  /** A number as `ptrdiff_t`. */
  function Signed(x: int): (s: int)
    ensures -HALF <= s < HALF
  {
    if Word(x) < HALF then Word(x) else Word(x) - WORD
  }

  lemma WordSum(a: int, b: int)
    ensures Word(Word(a) + b) == Word(a + b)
  {
  }

  /** A number is kept when it is in range, and otherwise moved into range by multiples of 2^64. */
  lemma InRange(x: int)
    ensures WORD == 0x1_0000_0000_0000_0000 && HALF == 0x8000_0000_0000_0000
    ensures 0 <= x < 0x1_0000_0000_0000_0000 <==> Word(x) == x
    ensures -0x8000_0000_0000_0000 <= x < 0x8000_0000_0000_0000 <==> Signed(x) == x
    ensures (x - Word(x)) % 0x1_0000_0000_0000_0000 == 0 == (x - Signed(x)) % 0x1_0000_0000_0000_0000
  {
    var q := x / 0x1_0000_0000_0000_0000;
    assert x - Word(x) == q * 0x1_0000_0000_0000_0000;
  }
}
