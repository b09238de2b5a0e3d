/** The codec between typed blocks and the engine's wire form, a block type
    plus one data byte. */
module Java {
  import opened Blocks
  import opened ByteExtensions

  /** The wire form of a block. */
  datatype JavaBlock = JavaBlock(Type: BlockType, Data: Byte)

  /** A wire block that some typed block encodes to: a type without a
      sub-variant always travels with data byte 0. */
  predicate Canonical(j: JavaBlock)
  {
    HasSubVariant(j.Type) || j.Data == 0
  }

  /** Encodes a typed block. The wire type is the block's own type, a Stone's
      data byte is the byte its mineral parses back from, and a block without
      a sub-variant is sent with data byte 0. */
  function From(b: Block): (j: JavaBlock)
    ensures j.Type == b.Type()
    ensures b.Stone? ==> Parse(j.Data) == b.mineral
    ensures !HasSubVariant(j.Type) ==> j.Data == 0
  {
    match b
    case Stone(m) => JavaBlock(BlockType.Stone, ToByte(m))
    case EndStone => JavaBlock(BlockType.EndStone, 0)
    case Glowstone => JavaBlock(BlockType.Glowstone, 0)
  }

  /** Decodes a wire block. The result is a block of type `t`; a Stone
      carries the raw data byte as its mineral, whether or not that byte is a
      named mineral, and the other types ignore the data byte. */
  function Create(t: BlockType, data: Byte): (b: Block)
    ensures b.Type() == t
    ensures b.Stone? ==> ToByte(b.mineral) == data
  {
    match t
    case Stone => Block.Stone(Parse(data))
    case EndStone => Block.EndStone
    case Glowstone => Block.Glowstone
  }

  /** Decoding an encoded block gives the block back. */
  lemma CreateFrom(b: Block)
    ensures Create(From(b).Type, From(b).Data) == b
  {
  }

  /** Encoding a decoded wire block gives the wire block back exactly when it
      is canonical; a non-zero data byte on EndStone or Glowstone is dropped. */
  lemma FromCreate(j: JavaBlock)
    ensures From(Create(j.Type, j.Data)) == j <==> Canonical(j)
  {
  }

  /** Every encoding is canonical, and distinct blocks encode differently. */
  lemma FromInjective(a: Block, b: Block)
    ensures Canonical(From(a))
    ensures From(a) == From(b) <==> a == b
  {
  }

  /** Decoding never rejects a byte: a Stone decodes to the mineral with the
      byte's numeric value, and the other types give their bare block. */
  lemma CreateTotal(t: BlockType, data: Byte)
    ensures t == BlockType.Stone ==> Create(t, data) == Block.Stone(data as int as Mineral)
    ensures t != BlockType.Stone ==> Create(t, data) == Create(t, 0)
  {
  }

  /** The Stone blocks decoded from the data bytes below `n`. */
  ghost function StoneDecodings(n: nat): set<Block>
  {
    set d: Byte | d as int < n :: Create(BlockType.Stone, d)
  }

  /** The first `n` data bytes decode to `n` distinct Stone blocks. */
  lemma {:induction false} StoneDecodingsCount(n: nat)
    requires n <= 256
    ensures |StoneDecodings(n)| == n
  {
    if n == 0 {
      assert StoneDecodings(0) == {};
    } else {
      var d := (n - 1) as Byte;
      StoneDecodingsCount(n - 1);
      assert StoneDecodings(n) == StoneDecodings(n - 1) + {Create(BlockType.Stone, d)};
      assert Create(BlockType.Stone, d) !in StoneDecodings(n - 1);
    }
  }

  /** The permissive Stone decoding keeps every data byte apart: the 256
      bytes decode to 256 different blocks, which are all the Stone blocks. */
  lemma StoneDistinguishesEveryByte()
    ensures |AllDecodings(BlockType.Stone)| == 256
    ensures AllDecodings(BlockType.Stone) == set m: Mineral :: Block.Stone(m)
  {
    StoneDecodingsCount(256);
    assert AllDecodings(BlockType.Stone) == StoneDecodings(256);
    forall m: Mineral
      ensures Block.Stone(m) in AllDecodings(BlockType.Stone)
    {
      assert Create(BlockType.Stone, ToByte(m)) == Block.Stone(m);
    }
  }

  /** The blocks of type `t` decoded from all data bytes. */
  ghost function AllDecodings(t: BlockType): set<Block>
  {
    set d: Byte | 0 <= d :: Create(t, d)
  }

  /** A type without a sub-variant decodes all 256 data bytes to its single
      bare block. */
  lemma BareTypeIgnoresEveryByte(t: BlockType)
    requires !HasSubVariant(t)
    ensures AllDecodings(t) == {Create(t, 0)}
  {
    var zero: Byte := 0;
    assert Create(t, zero) in AllDecodings(t);
  }
}
