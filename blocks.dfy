/** The typed block model of the client: block kinds, the Stone block's
    mineral sub-variant, and the one-byte data value of the engine's wire form. */
module Blocks {

  /** An unsigned 8-bit value (C# `byte`). */
  newtype Byte = x: int | 0 <= x < 256

  /** The wire identifier of a block kind. */
  datatype BlockType = Stone | EndStone | Glowstone

  /** The sub-variant of a Stone block. It is an enumeration over a byte, so
      every byte value is a Mineral, named or not (`(Mineral)0x20` is legal). */
  newtype Mineral = x: int | 0 <= x < 256

  /** A typed block. Only Stone carries a sub-variant. */
  datatype Block = Stone(mineral: Mineral) | EndStone | Glowstone
  {
    /** The fixed block type of each kind of block. */
    function Type(): (t: BlockType)
      ensures HasSubVariant(t) <==> this.Stone?
      ensures t == BlockType.EndStone <==> this == Block.EndStone
      ensures t == BlockType.Glowstone <==> this == Block.Glowstone
    {
      match this
      case Stone(_) => BlockType.Stone
      case EndStone => BlockType.EndStone
      case Glowstone => BlockType.Glowstone
    }
  }

  /** Whether blocks of type `t` carry a sub-variant in their data byte. */
  predicate HasSubVariant(t: BlockType)
  {
    t == BlockType.Stone
  }
}

/** The named enumerants of Mineral (the stone data values of Minecraft Java
    Edition); `Minerals.Stone` is the zero value. */
module Minerals {
  import opened Blocks

  const Stone: Mineral := 0
  const Granite: Mineral := 1
  const SmoothGranite: Mineral := 2
  const Diorite: Mineral := 3
  const SmoothDiorite: Mineral := 4
  const Andesite: Mineral := 5
  const SmoothAndesite: Mineral := 6

  /** The minerals that have a name. */
  const Named: set<Mineral> :=
    {Stone, Granite, SmoothGranite, Diorite, SmoothDiorite, Andesite, SmoothAndesite}

  predicate IsNamed(m: Mineral)
  {
    m in Named
  }
}
