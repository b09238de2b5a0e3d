/** The codec's behaviour on the concrete cases the client's unit tests fix. */
module JavaBlockTester {
  import opened Blocks
  import Minerals
  import opened ByteExtensions
  import opened Java

  /** An omitted data byte: a null test argument for a `byte` parameter
      arrives as `default(byte)`. */
  const Absent: Byte := 0

  /** The rows of the Stone decoding theory: a data byte and the mineral the
      decoded Stone must carry. */
  const StoneRows: seq<(Byte, Mineral)> := [
    (ToByte(Minerals.Stone), Minerals.Stone),
    (ToByte(Minerals.Andesite), Minerals.Andesite),
    (ToByte(Minerals.SmoothGranite), Minerals.SmoothGranite),
    (0x20, 0x20 as Mineral),
    (Absent, Minerals.Stone)
  ]

  /** Serializing a Stone gives a Stone wire block whose data parses back to
      the mineral. */
  lemma StoneSerializesVariantAsByte()
    ensures From(Block.Stone(Minerals.SmoothAndesite)).Type == BlockType.Stone
    ensures Parse(From(Block.Stone(Minerals.SmoothAndesite)).Data) == Minerals.SmoothAndesite
  {
  }

  /** Each row of the theory decodes to a Stone of type Stone carrying the
      expected mineral. */
  lemma StoneDeserializesVariant(i: nat)
    requires i < |StoneRows|
    ensures Create(BlockType.Stone, StoneRows[i].0).Stone?
    ensures Create(BlockType.Stone, StoneRows[i].0).Type() == BlockType.Stone
    ensures Create(BlockType.Stone, StoneRows[i].0).mineral == StoneRows[i].1
  {
  }

  /** The row with byte 0x20 is the permissive case: that byte names no
      mineral, yet the theory (row 3) decodes it to a Stone. */
  lemma UnnamedTheoryByte()
    ensures StoneRows[3].0 == 0x20
    ensures !Minerals.IsNamed(StoneRows[3].1)
  {
  }

  /** Serializing an EndStone gives an EndStone wire block. */
  lemma EndStoneSerializes()
    ensures From(Block.EndStone).Type == BlockType.EndStone
  {
  }

  /** Decoding an EndStone wire block gives an EndStone, whatever its data. */
  lemma EndStoneDeserializes(data: Byte)
    ensures Create(BlockType.EndStone, data) == Block.EndStone
  {
  }

  /** Serializing a Glowstone gives a Glowstone wire block. */
  lemma GlowstoneSerializes()
    ensures From(Block.Glowstone).Type == BlockType.Glowstone
  {
  }

  /** Decoding a Glowstone wire block gives a Glowstone, whatever its data. */
  lemma GlowstoneDeserializes(data: Byte)
    ensures Create(BlockType.Glowstone, data) == Block.Glowstone
  {
  }
}
