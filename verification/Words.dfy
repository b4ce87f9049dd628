/** Numbers that are kept in one byte. */
module Words {

  lemma LengthByte(n: nat)
    requires n < 256
    ensures (n as bv8) as int == n
  {
  }
}
