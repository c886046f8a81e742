/** The packed record layouts of the sky (spyro.h). Each bit-field union becomes an
    unpack function from the machine word to its fields and a pack function back.
    Bit-fields are allocated from the least-significant bit upwards, as GCC does on
    little-endian targets; a byte-aligned struct is read in address order. */
module SkyLayout {
  import opened Bytes

  /** A nullable pointer to an owned buffer. */
  datatype Option<+T> = None | Some(value: T)

  type int16 = x: int | -0x8000 <= x < 0x8000

  // ---------------------------------------------------------------- enum game_ver

  const S1_FULL: bv32 := 1
  const S2_FULL: bv32 := 2
  const S3_FULL: bv32 := 4

  /** The test `game_type & S1_FULL` that selects the earlier title's layout. Spyro 1
      selects it and Spyro 2 and 3 do not. */
  predicate IsS1(gameType: bv32): (b: bool)
    ensures gameType == S1_FULL ==> b
    ensures gameType == S2_FULL || gameType == S3_FULL || gameType == S2_FULL | S3_FULL ==> !b
  {
    gameType & S1_FULL != 0
  }

  /** The test `game_type & S2_FULL || game_type & S3_FULL` that decides whether
      the misc-polygon slots are allocated. Spyro 2 and 3 have them and Spyro 1
      does not. */
  predicate HasMiscPolygons(gameType: bv32): (b: bool)
    ensures gameType == S2_FULL || gameType == S3_FULL || gameType == S2_FULL | S3_FULL ==> b
    ensures gameType == S1_FULL ==> !b
  {
    gameType & S2_FULL != 0 || gameType & S3_FULL != 0
  }

  /** At least one of the three known title bits is set. */
  predicate KnownGame(gameType: bv32) {
    gameType & (S1_FULL | S2_FULL | S3_FULL) != 0
  }

  /** The three titles are distinct single bits. */
  lemma GameVersionBits()
    ensures S1_FULL & S2_FULL == 0 && S1_FULL & S3_FULL == 0 && S2_FULL & S3_FULL == 0
    ensures S1_FULL == 1 << 0 && S2_FULL == 1 << 1 && S3_FULL == 1 << 2
  {
  }

  /** The earlier title's layout is chosen whenever its bit is present, whatever else
      is set; a known game type that does not select it has the misc-polygon slots. */
  lemma GameTypeBranches(gameType: bv32)
    ensures IsS1(gameType) ==> IsS1(gameType | S2_FULL) && IsS1(gameType | S3_FULL)
    ensures KnownGame(gameType) <==> IsS1(gameType) || HasMiscPolygons(gameType)
  {
  }

  // ---------------------------------------------------------------- counts

  /** VCPCount: running totals over all sectors, each a 32-bit unsigned counter. */
  datatype VCPCount = VCPCount(vertex: u32, color: u32, polygon: u32, polygonMisc: u32)

  const ZeroVCP := VCPCount(0, 0, 0, 0)

  /** The C expression `total += count` on a `uint32_t` total. */
  function AddU32(total: u32, count: nat): (r: u32)
    ensures r == (total + count) % 0x1_0000_0000
    ensures count < 0x1_0000_0000 ==>
              r == if total + count < 0x1_0000_0000 then total + count else total + count - 0x1_0000_0000
  {
    (total + count) % 0x1_0000_0000
  }

  /** SecVCPCountS1: the earlier title's per-sector counts, three 16-bit fields. */
  datatype SecVCPCountS1 = SecVCPCountS1(vertex: u16, color: u16, polygon: u16)

  /** SecVCPCountS23: the later titles' per-sector counts; `polygon` and
      `polygonMisc` are byte sizes, not record counts. */
  datatype SecVCPCountS23 = SecVCPCountS23(vertex: u8, color: u8, polygon: u16, polygonMisc: u16)

  /** The contents of the `sector_vcp` block, whose element type depends on the title. */
  datatype SectorCounts = CountsS1(s1: SecVCPCountS1) | CountsS23(s23: SecVCPCountS23)

  const ZeroCountsS1 := CountsS1(SecVCPCountS1(0, 0, 0))
  const ZeroCountsS23 := CountsS23(SecVCPCountS23(0, 0, 0, 0))

  /** The slot values a fresh per-sector count block holds for a layout. */
  function ZeroCounts(s1: bool): SectorCounts {
    if s1 then ZeroCountsS1 else ZeroCountsS23
  }

  // ---------------------------------------------------------------- SpyroSkyCoord

  /** SpyroSkyCoord, fields in declaration order (y, z, x). */
  datatype SkyCoord = SkyCoord(y: int16, z: int16, x: int16)

  /** A `uint16_t` read into an `int16_t`: two's complement, negative exactly when
      the top bit is set. */
  function ToInt16(u: u16): (r: int16)
    ensures r == u || r == u - 0x1_0000
    ensures r < 0 <==> u >= 0x8000
  {
    if u < 0x8000 then u else u - 0x1_0000
  }

  /** The `uint16_t` bit pattern of an `int16_t`. */
  function FromInt16(x: int16): (u: u16)
    ensures ToInt16(u) == x
  {
    if x >= 0 then x else x + 0x1_0000
  }

  /** Every bit pattern is the pattern of the signed value it denotes. */
  lemma FromInt16OfToInt16(u: u16)
    ensures FromInt16(ToInt16(u)) == u
  {
  }

  // ---------------------------------------------------------------- VertexSky

  /** VertexSky: z in bits 0-9, y in bits 10-20, x in bits 21-31. */
  datatype VertexComp = VertexComp(z: bv32, y: bv32, x: bv32)

  predicate VertexInRange(c: VertexComp) {
    c.z < 0x400 && c.y < 0x800 && c.x < 0x800
  }

  function VertexPack(c: VertexComp): bv32
    requires VertexInRange(c)
  {
    c.z | (c.y << 10) | (c.x << 21)
  }

  /** The fields of a vertex word; they fit their widths and cover the word exactly. */
  function VertexUnpack(val: bv32): (c: VertexComp)
    ensures VertexInRange(c)
    ensures VertexPack(c) == val
  {
    VertexComp(val & 0x3FF, (val >> 10) & 0x7FF, val >> 21)
  }

  lemma VertexPackUnpack(c: VertexComp)
    requires VertexInRange(c)
    ensures VertexUnpack(VertexPack(c)) == c
  {
  }

  // ---------------------------------------------------------------- Color

  /** Color: four byte-aligned channels r, g, b, i in address order. */
  datatype ColorComp = ColorComp(r: bv8, g: bv8, b: bv8, i: bv8)

  function ColorPack(c: ColorComp): bv32 {
    (c.r as bv32) | ((c.g as bv32) << 8) | ((c.b as bv32) << 16) | ((c.i as bv32) << 24)
  }

  /** The channels of a colour word, least significant byte first. */
  function ColorUnpack(val: bv32): (c: ColorComp)
    ensures ColorPack(c) == val
  {
    ColorComp((val & 0xFF) as bv8, ((val >> 8) & 0xFF) as bv8, ((val >> 16) & 0xFF) as bv8, (val >> 24) as bv8)
  }

  lemma ColorPackUnpack(c: ColorComp)
    ensures ColorUnpack(ColorPack(c)) == c
  {
  }

  /** A colour read from four bytes of the file has r, g, b, i equal to those bytes in order. */
  lemma ColorOfBytes(b: seq<u8>)
    requires |b| == 4
    ensures ColorUnpack(LeWord32(b)) == ColorComp(b[0] as bv8, b[1] as bv8, b[2] as bv8, b[3] as bv8)
  {
  }

  // ---------------------------------------------------------------- IndexSky

  /** IndexSky: 2 unused low bits, then three 10-bit indices. */
  datatype IndexComp = IndexComp(unused: bv32, first: bv32, second: bv32, third: bv32)

  predicate IndexInRange(c: IndexComp) {
    c.unused < 4 && c.first < 0x400 && c.second < 0x400 && c.third < 0x400
  }

  function IndexPack(c: IndexComp): bv32
    requires IndexInRange(c)
  {
    c.unused | (c.first << 2) | (c.second << 12) | (c.third << 22)
  }

  function IndexUnpack(val: bv32): (c: IndexComp)
    ensures IndexInRange(c)
    ensures IndexPack(c) == val
  {
    IndexComp(val & 0x3, (val >> 2) & 0x3FF, (val >> 12) & 0x3FF, val >> 22)
  }

  lemma IndexPackUnpack(c: IndexComp)
    requires IndexInRange(c)
    ensures IndexUnpack(IndexPack(c)) == c
  {
  }

  // ---------------------------------------------------------------- PolygonSkyS1

  /** PolygonSkyS1: the vertex IndexSky in the low word, the colour IndexSky in the high word. */
  datatype PolygonS1Comp = PolygonS1Comp(vert: bv32, color: bv32)

  function PolygonS1Pack(c: PolygonS1Comp): bv64 {
    (c.vert as bv64) | ((c.color as bv64) << 32)
  }

  function PolygonS1Unpack(val: bv64): (c: PolygonS1Comp)
    ensures PolygonS1Pack(c) == val
  {
    PolygonS1Comp((val & 0xFFFF_FFFF) as bv32, (val >> 32) as bv32)
  }

  lemma PolygonS1PackUnpack(c: PolygonS1Comp)
    ensures PolygonS1Unpack(PolygonS1Pack(c)) == c
  {
  }

  /** An 8-byte polygon of the file: its first four bytes are the vertex indices,
      its last four the colour indices. */
  lemma PolygonS1OfBytes(b: seq<u8>)
    requires |b| == 8
    ensures PolygonS1Unpack(LeWord64(b)) == PolygonS1Comp(LeWord32(b[..4]), LeWord32(b[4..]))
  {
  }

  // ---------------------------------------------------------------- PolygonSkyS2S3

  /** PolygonSkyS2S3: misc_count (3 bits), three 7-bit colour indices, one 8-bit vertex index. */
  datatype PolygonS23Comp = PolygonS23Comp(miscCount: bv32, colorFirst: bv32, colorSecond: bv32, colorThird: bv32, firstVertex: bv32)

  predicate PolygonS23InRange(c: PolygonS23Comp) {
    c.miscCount < 8 && c.colorFirst < 0x80 && c.colorSecond < 0x80 && c.colorThird < 0x80 && c.firstVertex < 0x100
  }

  function PolygonS23Pack(c: PolygonS23Comp): bv32
    requires PolygonS23InRange(c)
  {
    c.miscCount | (c.colorFirst << 3) | (c.colorSecond << 10) | (c.colorThird << 17) | (c.firstVertex << 24)
  }

  function PolygonS23Unpack(val: bv32): (c: PolygonS23Comp)
    ensures PolygonS23InRange(c)
    ensures PolygonS23Pack(c) == val
  {
    PolygonS23Comp(val & 0x7, (val >> 3) & 0x7F, (val >> 10) & 0x7F, (val >> 17) & 0x7F, val >> 24)
  }

  lemma PolygonS23PackUnpack(c: PolygonS23Comp)
    requires PolygonS23InRange(c)
    ensures PolygonS23Unpack(PolygonS23Pack(c)) == c
  {
  }

  // ---------------------------------------------------------------- PolygonSkyS2S3Misc

  /** The `misc` half-word: an 8-bit vertex index, a 7-bit colour index and a 1-bit flag. */
  datatype MiscBits = MiscBits(vertex: bv16, color: bv16, vertexMiddle: bv16)

  predicate MiscBitsInRange(c: MiscBits) {
    c.vertex < 0x100 && c.color < 0x80 && c.vertexMiddle < 2
  }

  function MiscBitsPack(c: MiscBits): bv16
    requires MiscBitsInRange(c)
  {
    c.vertex | (c.color << 8) | (c.vertexMiddle << 15)
  }

  function MiscBitsUnpack(val: bv16): (c: MiscBits)
    ensures MiscBitsInRange(c)
    ensures MiscBitsPack(c) == val
  {
    MiscBits(val & 0xFF, (val >> 8) & 0x7F, val >> 15)
  }

  lemma MiscBitsPackUnpack(c: MiscBits)
    requires MiscBitsInRange(c)
    ensures MiscBitsUnpack(MiscBitsPack(c)) == c
  {
  }

  /** PolygonSkyS2S3Misc: two byte indices followed by the `misc` half-word, whose
      bits MiscBitsUnpack splits. */
  datatype MiscComp = MiscComp(secondVertex: u8, thirdVertex: u8, misc: u16)

  function MiscPack(c: MiscComp): (b: seq<u8>)
    ensures |b| == 4
  {
    [c.secondVertex, c.thirdVertex] + U16Bytes(c.misc)
  }

  /** The fields of a 4-byte misc record: bytes 0 and 1, then the half-word in bytes 2-3. */
  function MiscUnpack(b: seq<u8>): (c: MiscComp)
    requires |b| == 4
    ensures MiscPack(c) == b
  {
    U16BytesOfU16(b[2..]);
    MiscComp(b[0], b[1], U16(b[2..]))
  }

  lemma MiscPackUnpack(c: MiscComp)
    ensures MiscUnpack(MiscPack(c)) == c
  {
    assert MiscPack(c)[2..] == U16Bytes(c.misc);
  }

  /** The bit-fields of a misc record's half-word. */
  function MiscBitsOf(c: MiscComp): (m: MiscBits)
    ensures MiscBitsInRange(m) && MiscBitsPack(m) == c.misc as bv16
  {
    MiscBitsUnpack(c.misc as bv16)
  }
}
