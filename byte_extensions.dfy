/** Conversions between a data byte and a Mineral. */
module ByteExtensions {
  import opened Blocks

  /** The cast `(byte)m` of a Mineral to its underlying byte: the byte has
      the mineral's numeric value, named or not. */
  function ToByte(m: Mineral): (b: Byte)
    ensures b as int == m as int
  {
    m as int as Byte
  }

  /** Reads a data byte as a Mineral: the byte's decimal text is parsed by
      the enumeration, which yields the Mineral with that numeric value,
      named or not. It never fails, and it inverts the cast `(byte)m`. */
  function Parse(input: Byte): (m: Mineral)
    ensures ToByte(m) == input
  {
    input as int as Mineral
  }

  /** Parse undoes the cast, so Parse and ToByte are mutually inverse. */
  lemma ParseToByte(m: Mineral)
    ensures Parse(ToByte(m)) == m
  {
  }

  /** Two bytes that parse to the same Mineral are the same byte. */
  lemma ParseInjective(a: Byte, b: Byte)
    ensures Parse(a) == Parse(b) <==> a == b
  {
  }
}
