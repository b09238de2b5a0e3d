# Block codec of the Minecraft client

This project models the block codec of the `Decent.Minecraft.Client` library:
the mapping between the typed block model (`Stone(Mineral)`, `EndStone`,
`Glowstone`) and the engine's wire form, a `BlockType` plus one data byte.
Encoding is `JavaBlock.From` (here `Java.From`); decoding is
`JavaBlock.Create` (here `Java.Create`). The library's `JavaBlock`, `Stone`
and `Mineral` declarations are not part of this model's sources; the codec is
the contract its unit tests in `Decent.Minecraft.Client.Test/JavaBlockTester.cs`
assert, together with the test helper `ByteExtensions.Parse`.

Files:

- `blocks.dfy` — module `Blocks` (`Byte`, `BlockType`, `Mineral`, `Block`
  with its `Type()`) and module `Minerals` (the named mineral values).
- `byte_extensions.dfy` — module `ByteExtensions`: the `(byte)` cast of a
  mineral and `Parse`, which reads a data byte as a mineral.
- `java_block.dfy` — module `Java`: the wire block, `From`, `Create`, and the
  codec laws (both round trips, injectivity, permissive decoding, counting
  lemmas over all 256 data bytes).
- `java_block_tester.dfy` — module `JavaBlockTester`: one lemma per unit test,
  with the Stone theory's rows as a sequence, and one lemma stating that the
  theory's byte 0x20 names no mineral.

Decisions:

- `Mineral` is an enumeration over a byte, so it is a newtype over 0..255 and
  any byte is a Mineral, named or not. Only `Minerals.Stone == 0` follows from
  the tests (the null row of the theory); the other named values are the stone
  data values of Minecraft Java Edition (Granite 1, SmoothGranite 2, Diorite 3,
  SmoothDiorite 4, Andesite 5, SmoothAndesite 6). No law depends on them beyond
  their being below 0x20.
- `Parse` calls `Enum.Parse` on the byte's decimal text; for an enumeration
  that yields the value with that number, named or not, so it is modelled as
  numeric reinterpretation.
- A null `InlineData` argument for a `byte` parameter reaches the test as
  `default(byte)`, so "absent data" is the byte 0 (`JavaBlockTester.Absent`).
- Blocks without a sub-variant (EndStone, Glowstone): the tests fix only the
  wire type (JavaBlockTester.cs lines 56, 69, 85, 98) and decode only byte 0
  (`new byte()`, lines 67 and 96). The library's `JavaBlock` is not part of
  this model, so two behaviours are assumptions about it: (a) these kinds
  encode with data byte 0 (the third ensures of `Java.From`); (b) they decode
  ignoring a non-zero data byte. `JavaBlockTester.EndStoneDeserializes`,
  `JavaBlockTester.GlowstoneDeserializes`, `Java.BareTypeIgnoresEveryByte` and
  the second ensures of `Java.CreateTotal` rest on (b).

## Model

| member | source | states |
|---|---|---|
| `Blocks.Block.Type` | Decent.Minecraft.Client.Test/JavaBlockTester.cs:39 | each block kind has its fixed wire type: exactly Stone blocks have the type with a sub-variant, and EndStone and Glowstone have their own types |
| `ByteExtensions.ToByte` | Decent.Minecraft.Client.Test/JavaBlockTester.cs:30-31 | the `(byte)` cast of a mineral keeps its numeric value, named or not |
| `ByteExtensions.Parse` | Decent.Minecraft.Client.Test/JavaBlockTester.cs:105-111 | every data byte parses to a mineral (never fails), and that mineral casts back to the same byte |
| `ByteExtensions.ParseToByte` | Decent.Minecraft.Client.Test/JavaBlockTester.cs:107-110 | parsing the byte cast of a mineral gives that mineral back |
| `ByteExtensions.ParseInjective` | Decent.Minecraft.Client.Test/JavaBlockTester.cs:107-110 | two data bytes parse to the same mineral exactly when they are equal |
| `Java.From` | Decent.Minecraft.Client.Test/JavaBlockTester.cs:16-24 | encoding keeps the block's type; a Stone's data byte parses back to its mineral; a type without sub-variant gets data byte 0 |
| `Java.Create` | Decent.Minecraft.Client.Test/JavaBlockTester.cs:35-41 | decoding gives a block of the requested type; a decoded Stone's mineral is the raw data byte |
| `Java.CreateFrom` | Decent.Minecraft.Client.Test/JavaBlockTester.cs:16-41 | decoding the encoding of any block gives that block back |
| `Java.FromCreate` | Decent.Minecraft.Client.Test/JavaBlockTester.cs:35-41 | encoding a decoded wire block restores it exactly when it is canonical (Stone, or data byte 0) |
| `Java.FromInjective` | Decent.Minecraft.Client.Test/JavaBlockTester.cs:18-23 | every encoding is canonical, and two blocks encode alike exactly when they are equal |
| `Java.CreateTotal` | Decent.Minecraft.Client.Test/JavaBlockTester.cs:33-40 | decoding never rejects a byte: Stone carries the byte's numeric value, other types give the same block as for byte 0 |
| `Java.StoneDecodingsCount` | Decent.Minecraft.Client.Test/JavaBlockTester.cs:29-40 | the data bytes below n decode to exactly n distinct Stone blocks |
| `Java.StoneDistinguishesEveryByte` | Decent.Minecraft.Client.Test/JavaBlockTester.cs:29-40 | the 256 data bytes decode to 256 different Stone blocks, which are all the Stone blocks there are |
| `Java.BareTypeIgnoresEveryByte` | Decent.Minecraft.Client.Test/JavaBlockTester.cs:62-99 | for a type without sub-variant (EndStone, lines 62-70; Glowstone, lines 91-99), all 256 data bytes decode to the one bare block |
| `JavaBlockTester.StoneSerializesVariantAsByte` | Decent.Minecraft.Client.Test/JavaBlockTester.cs:15-24 | `Stone(SmoothAndesite)` encodes to type Stone with data parsing to SmoothAndesite |
| `JavaBlockTester.StoneDeserializesVariant` | Decent.Minecraft.Client.Test/JavaBlockTester.cs:29-41 | each theory row decodes to a Stone of type Stone carrying the row's expected mineral, including byte 0x20 carried raw and the omitted byte (0) decoding to `Mineral.Stone` |
| `JavaBlockTester.UnnamedTheoryByte` | Decent.Minecraft.Client.Test/JavaBlockTester.cs:33 | the theory row with byte 0x20 expects a mineral that has no name |
| `JavaBlockTester.EndStoneSerializes` | Decent.Minecraft.Client.Test/JavaBlockTester.cs:50-57 | `EndStone` encodes to type EndStone |
| `JavaBlockTester.EndStoneDeserializes` | Decent.Minecraft.Client.Test/JavaBlockTester.cs:63-70 | `(EndStone, data)` decodes to EndStone for every data byte, the test's byte 0 included |
| `JavaBlockTester.GlowstoneSerializes` | Decent.Minecraft.Client.Test/JavaBlockTester.cs:79-86 | `Glowstone` encodes to type Glowstone |
| `JavaBlockTester.GlowstoneDeserializes` | Decent.Minecraft.Client.Test/JavaBlockTester.cs:92-99 | `(Glowstone, data)` decodes to Glowstone for every data byte, the test's byte 0 included |

## Left out

- Unregistered block types: `BlockType` here has only Stone, EndStone and Glowstone, so `Create` is total; the `UnknownBlockType` error for other type ids is outside the model.
- Grass and Snow (thickness) blocks: they are only constructed by the sample application, and no test fixes their wire bytes.
- `Mineral` with an underlying type wider than a byte: the model takes the enumeration to be byte-valued, so a truncating `(byte)` cast of a larger value is not modelled.
- The registry structure of the codec (a table keyed by `BlockType`): the source of `JavaBlock` is not part of this model, so dispatch is a `match` on the type.
- The sample console application `samples/Decent.Minecraft.Scratch/Program.cs`: console I/O, networking, asynchronous delays and event subscription.
- The protocol client, connection state machine, response correlation and event dispatch: concurrency and networking, whose source is not part of this model.
- Positions and vector arithmetic: single-precision floating point from `System.Numerics`.
- The xUnit and FluentAssertions machinery, and the string round trip inside `Enum.Parse` (modelled as numeric reinterpretation).
