/** Little-endian words in byte strings. */
module Bytes {
  type Byte = b: nat | b < 256

  const WORD: nat := 0x1_0000_0000

  /** Four bytes, the lowest first. */
  function Quad(a: nat, b: nat, c: nat, d: nat): nat {
    a + 0x100 * b + 0x1_0000 * c + 0x100_0000 * d
  }

  function U32(s: seq<Byte>, at: nat): (n: nat)
    requires at + 4 <= |s|
    ensures n < WORD
  {
    Quad(s[at], s[at + 1], s[at + 2], s[at + 3])
  }

  function U64(s: seq<Byte>, at: nat): nat
    requires at + 8 <= |s|
  {
    U32(s, at) + WORD * U32(s, at + 4)
  }

  function Le32(n: nat): (s: seq<Byte>)
    ensures |s| == 4
  {
    [n % 0x100, n / 0x100 % 0x100, n / 0x1_0000 % 0x100, n / 0x100_0000 % 0x100]
  }

  function Le64(n: nat): (s: seq<Byte>)
    ensures |s| == 8
  {
    Le32(n % WORD) + Le32(n / WORD)
  }

  lemma Le32Digits(n: nat)
    requires n < WORD
    ensures Quad(Le32(n)[0], Le32(n)[1], Le32(n)[2], Le32(n)[3]) == n
  {
    var a := n / 0x100;
    var b := a / 0x100;
    var c := b / 0x100;
    assert n / 0x1_0000 == b && n / 0x100_0000 == c;
  }

  /** A word that was written is read back wherever it stands. */
  lemma ReadBack(s: seq<Byte>, at: nat, n: nat)
    requires n < WORD && at + 4 <= |s| && s[at..at + 4] == Le32(n)
    ensures U32(s, at) == n
  {
    Le32Digits(n);
    var w := s[at..at + 4];
    assert w[0] == s[at] && w[1] == s[at + 1] && w[2] == s[at + 2] && w[3] == s[at + 3];
  }

  /** What follows does not matter to a word. */
  lemma SameWord(s: seq<Byte>, t: seq<Byte>, at: nat)
    requires at + 4 <= |s| && |s| <= |t| && s == t[..|s|]
    ensures U32(s, at) == U32(t, at)
  {
  }
}
