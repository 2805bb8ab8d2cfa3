/** Encoding random bytes as letters, in place (meloop/random.c). */
module Randoms {
  import opened CTypes

  const UINT_MAX: int := 0xFFFF_FFFF
  const INT_MAX: int := 0x7FFF_FFFF

  /** A char as C converts it to unsigned int: where char is signed, bytes from 128 on are negative and wrap
      around. */
  function CharToUnsigned(b: Byte, signed: bool): (t: int)
    ensures 0 <= t <= UINT_MAX
  {
    if signed && b >= 128 then UINT_MAX + 1 + b - 256 else b
  }

  /** The letter of a byte. */
  function Letter(b: Byte): (l: Byte)
    ensures 'a' as int <= l <= 'z' as int
  {
    b % 26 + 97
  }

  /** Signedness does not matter: 2^32 - 256 is a multiple of 26. */
  lemma SignednessIsIrrelevant(b: Byte, signed: bool)
    ensures CharToUnsigned(b, signed) % 26 + 97 == Letter(b)
  {
    assert UINT_MAX + 1 - 256 == 26 * 165191040;
    if signed && b >= 128 {
      assert CharToUnsigned(b, signed) == b + 26 * 165191040;
    }
  }

  /** Turn every byte into its letter. A size above INT_MAX would overflow the loop variable. */
  method RandEncA(blob: array<Byte>, size: nat, signed: bool)
    requires size <= blob.Length && size <= INT_MAX
    modifies blob
    ensures forall k :: 0 <= k < size ==> blob[k] == Letter(old(blob[k])) == old(blob[k]) % 26 + 97
    ensures forall k :: size <= k < blob.Length ==> blob[k] == old(blob[k])
  {
    var i := 0;
    while i < size
      invariant 0 <= i <= size
      invariant forall k :: 0 <= k < i ==> blob[k] == Letter(old(blob[k]))
      invariant forall k :: i <= k < blob.Length ==> blob[k] == old(blob[k])
    {
      SignednessIsIrrelevant(blob[i], signed);
      var t := CharToUnsigned(blob[i], signed);
      blob[i] := t % 26 + 97;
      i := i + 1;
    }
  }
}
