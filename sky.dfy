/** The decoder itself: the `SpyroSky` structure it fills, `sky_free`, which releases
    it, and `sky_read`, which reads a sky record from a stream into it. Each method is
    proved against the reference decoder of `SkyFormat`. */
module Sky {
  import opened Bytes
  import opened SkyLayout
  import opened SkyFormat
  import opened Streams

  /** How `sky_read` ends: it returns 0 or 1, or the sentinel assertion ends the process. */
  datatype Exit = Returned(success: bool) | Aborted

  /** SpyroSky. Each table the structure points to is held as the sequence of its
      slots; a null pointer is the empty sequence (a live table is never empty, since
      it has one slot per sector and a sky without sectors allocates nothing). A
      per-sector buffer is the value it holds, and an empty slot is None. */
  class SpyroSky {
    var gameType: bv32
    var sectorCount: u32
    var background: bv32
    var vcp: VCPCount
    var unknown: seq<u64>
    var coordinates: seq<SkyCoord>
    var sectorVcp: seq<SectorCounts>
    var vertices: seq<Option<seq<u8>>>
    var colors: seq<Option<seq<u8>>>
    var polygons: seq<Option<seq<u8>>>
    var polygonsMisc: seq<Option<seq<u8>>>

    /** A zero-initialised structure. */
    constructor ()
      ensures Valid() && Cleared()
      ensures gameType == 0 && background == 0 && sectorVcp == []
    {
      gameType := 0;
      sectorCount := 0;
      background := 0;
      vcp := ZeroVCP;
      unknown := [];
      coordinates := [];
      sectorVcp := [];
      vertices := [];
      colors := [];
      polygons := [];
      polygonsMisc := [];
    }

    /** No sectors, no totals and no owned tables. */
    predicate Cleared()
      reads this
    {
      && sectorCount == 0 && vcp == ZeroVCP
      && unknown == [] && coordinates == []
      && vertices == [] && colors == [] && polygons == [] && polygonsMisc == []
    }

    /** What the release relies on: without sectors the structure owns nothing; with
        sectors every per-sector table exists with one slot per sector (the misc table
        only when it was allocated). */
    predicate Valid()
      reads this
    {
      if sectorCount == 0 then Cleared()
      else
        && |unknown| == sectorCount && |coordinates| == sectorCount && |sectorVcp| == sectorCount
        && |vertices| == sectorCount && |colors| == sectorCount && |polygons| == sectorCount
        && (polygonsMisc != [] ==> |polygonsMisc| == sectorCount)
    }

    /** The tables hold the sectors ss in their first |ss| slots, and the remaining
        slots still hold what the zeroing allocation left there. */
    predicate Stores(ss: seq<Sector>)
      reads this
    {
      Valid() && sectorCount != 0 && TablesHold(unknown, coordinates, vertices, colors, polygons, polygonsMisc, ss, sectorCount)
    }

    /** Every sector's counts are read into the first element of the count block, so
        it holds the counts of the last sector read and the other elements stay zero. */
    predicate CountsBlock(ss: seq<Sector>, s1: bool)
      reads this
    {
      CountsHeld(sectorVcp, ss, sectorCount, s1)
    }
  }

  /** Tables of n slots that hold the sectors ss in their first slots; a misc table
      that exists holds their misc buffers. */
  predicate TablesHold(unknown: seq<u64>, coordinates: seq<SkyCoord>, vertices: seq<Option<seq<u8>>>,
                       colors: seq<Option<seq<u8>>>, polygons: seq<Option<seq<u8>>>,
                       polygonsMisc: seq<Option<seq<u8>>>, ss: seq<Sector>, n: nat)
  {
    && |ss| <= n
    && unknown == UnknownColumn(ss, n)
    && coordinates == CoordColumn(ss, n)
    && vertices == VertexColumn(ss, n)
    && colors == ColorColumn(ss, n)
    && polygons == PolygonColumn(ss, n)
    && (polygonsMisc != [] ==> polygonsMisc == MiscColumn(ss, n))
  }

  /** A count block of n > 0 elements as reading the sectors ss left it. */
  predicate CountsHeld(sectorVcp: seq<SectorCounts>, ss: seq<Sector>, n: nat, s1: bool) {
    n != 0 && sectorVcp == CountsColumn(ss, n, s1)
  }

  // ---------------------------------------------------------------- table contents

  /** What a table of n slots holds once the sectors ss went into its first slots. */
  function UnknownColumn(ss: seq<Sector>, n: nat): (t: seq<u64>)
    requires |ss| <= n
    ensures |t| == n
  {
    seq(n, k requires 0 <= k < n => if k < |ss| then ss[k].unknown else 0)
  }

  function CoordColumn(ss: seq<Sector>, n: nat): (t: seq<SkyCoord>)
    requires |ss| <= n
    ensures |t| == n
  {
    seq(n, k requires 0 <= k < n => if k < |ss| then ss[k].coord else SkyCoord(0, 0, 0))
  }

  function VertexColumn(ss: seq<Sector>, n: nat): (t: seq<Option<seq<u8>>>)
    requires |ss| <= n
    ensures |t| == n
  {
    seq(n, k requires 0 <= k < n => if k < |ss| then Some(ss[k].vertices) else None)
  }

  function ColorColumn(ss: seq<Sector>, n: nat): (t: seq<Option<seq<u8>>>)
    requires |ss| <= n
    ensures |t| == n
  {
    seq(n, k requires 0 <= k < n => if k < |ss| then Some(ss[k].colors) else None)
  }

  function PolygonColumn(ss: seq<Sector>, n: nat): (t: seq<Option<seq<u8>>>)
    requires |ss| <= n
    ensures |t| == n
  {
    seq(n, k requires 0 <= k < n => if k < |ss| then Some(ss[k].polygons) else None)
  }

  function MiscColumn(ss: seq<Sector>, n: nat): (t: seq<Option<seq<u8>>>)
    requires |ss| <= n
    ensures |t| == n
  {
    seq(n, k requires 0 <= k < n => if k < |ss| then ss[k].misc else None)
  }

  /** The count block of n elements after the sectors ss were read into its first element. */
  function CountsColumn(ss: seq<Sector>, n: nat, s1: bool): (t: seq<SectorCounts>)
    requires n != 0
    ensures |t| == n
  {
    SlotBlock(n, s1, if ss != [] then ss[|ss| - 1].counts else ZeroCounts(s1))
  }

  /** The slot values of every slot of a table of n slots after it was emptied. */
  function NoBuffers(n: nat): (t: seq<Option<seq<u8>>>)
    ensures |t| == n && forall k :: 0 <= k < n ==> t[k] == None
  {
    seq(n, k => None)
  }

  /** Emptying slot i of a table whose first i slots are empty leaves its first i + 1
      slots empty. */
  lemma EmptiedOneMore(t: seq<Option<seq<u8>>>, i: nat)
    requires i < |t| && t[..i] == NoBuffers(i)
    ensures t[i := None][..i + 1] == NoBuffers(i + 1)
  {
    assert t[i := None][..i + 1] == t[..i] + [None];
  }

  /** The loop of sky_free: every sector's slots are emptied, the misc slot first when
      the misc table exists; nothing else changes. */
  method EmptySlots(sky: SpyroSky)
    requires sky.Valid() && sky.sectorCount != 0
    modifies sky
    ensures sky.vertices == NoBuffers(sky.sectorCount) && sky.colors == NoBuffers(sky.sectorCount)
    ensures sky.polygons == NoBuffers(sky.sectorCount)
    ensures sky.polygonsMisc == if old(sky.polygonsMisc) == [] then [] else NoBuffers(sky.sectorCount)
    ensures sky.gameType == old(sky.gameType) && sky.sectorCount == old(sky.sectorCount)
    ensures sky.background == old(sky.background) && sky.vcp == old(sky.vcp)
    ensures sky.unknown == old(sky.unknown) && sky.coordinates == old(sky.coordinates)
    ensures sky.sectorVcp == old(sky.sectorVcp)
  {
    var i: u32 := 0;
    while i < sky.sectorCount
      invariant 0 <= i <= sky.sectorCount && sky.Valid()
      invariant sky.vertices[..i] == NoBuffers(i as nat) && sky.colors[..i] == NoBuffers(i as nat)
      invariant sky.polygons[..i] == NoBuffers(i as nat)
      invariant (sky.polygonsMisc == []) == (old(sky.polygonsMisc) == [])
      invariant sky.polygonsMisc != [] ==> sky.polygonsMisc[..i] == NoBuffers(i as nat)
      invariant sky.gameType == old(sky.gameType) && sky.sectorCount == old(sky.sectorCount)
      invariant sky.background == old(sky.background) && sky.vcp == old(sky.vcp)
      invariant sky.unknown == old(sky.unknown) && sky.coordinates == old(sky.coordinates)
      invariant sky.sectorVcp == old(sky.sectorVcp)
    {
      if sky.polygonsMisc != [] {
        EmptiedOneMore(sky.polygonsMisc, i as nat);
        sky.polygonsMisc := sky.polygonsMisc[i := None];
      }
      EmptiedOneMore(sky.polygons, i as nat);
      sky.polygons := sky.polygons[i := None];
      EmptiedOneMore(sky.colors, i as nat);
      sky.colors := sky.colors[i := None];
      EmptiedOneMore(sky.vertices, i as nat);
      sky.vertices := sky.vertices[i := None];
      i := i + 1;
    }
    assert sky.vertices == sky.vertices[..i] && sky.colors == sky.colors[..i];
    assert sky.polygons == sky.polygons[..i];
    assert sky.polygonsMisc != [] ==> sky.polygonsMisc == sky.polygonsMisc[..i];
  }

  /** sky_free: a null structure or one without sectors is left as it is; otherwise
      every slot is emptied, every table but the count block is released, and the
      background colour and all counts are cleared. The count block is neither
      released nor forgotten. */
  method SkyFree(sky: SpyroSky?)
    requires sky != null ==> sky.Valid()
    modifies sky
    ensures sky != null ==> sky.Valid() && sky.Cleared()
    ensures sky != null ==> sky.gameType == old(sky.gameType) && sky.sectorVcp == old(sky.sectorVcp)
    ensures sky != null ==> sky.background == if old(sky.sectorCount) == 0 then old(sky.background) else 0
    ensures sky != null && old(sky.sectorCount) == 0 ==> unchanged(sky)
  {
    if sky == null || sky.sectorCount == 0 {
      return;
    }
    EmptySlots(sky);
    sky.polygonsMisc := [];
    sky.polygons := [];
    sky.colors := [];
    sky.vertices := [];
    sky.coordinates := [];
    sky.unknown := [];

    sky.background := 0;
    sky.vcp := ZeroVCP;
    sky.sectorCount := 0;
  }

  /** The earlier title's sector header read field by field from the cursor, stopping
      at the first read that fails; the sentinel is checked last. The counts are read
      straight into the first element of the count block, which held `prior`; `slot`
      is what that element holds when the reads stop. */
  method ReadHeaderS1(f: Stream, prior: SecVCPCountS1) returns (h: HeaderRead, slot: SecVCPCountS1)
    modifies f
    ensures h == HeaderS1At(f.data, old(f.pos))
    ensures h.HeaderOk? ==> f.pos == old(f.pos) + S1_SECTOR_HEADER_SIZE
    ensures slot == CountsLeftS1(f.data, old(f.pos), prior)
  {
    slot := prior;
    var ok, unknown := f.ReadU64();
    if !ok { return HeaderShort, slot; }
    var y, z, vertex, x, polygon, color, ff;
    ok, y := f.ReadU16();
    if !ok { return HeaderShort, slot; }
    ok, z := f.ReadU16();
    if !ok { return HeaderShort, slot; }
    ok, vertex := f.ReadU16();
    if !ok { return HeaderShort, slot; }
    slot := slot.(vertex := vertex);
    ok, x := f.ReadU16();
    if !ok { return HeaderShort, slot; }
    ok, polygon := f.ReadU16();
    if !ok { return HeaderShort, slot; }
    slot := slot.(polygon := polygon);
    ok, color := f.ReadU16();
    if !ok { return HeaderShort, slot; }
    slot := slot.(color := color);
    ok, ff := f.ReadU32();
    if !ok { return HeaderShort, slot; }
    if ff != SENTINEL { return HeaderBadSentinel, slot; }
    h := HeaderOk(Header(unknown, SkyCoord(ToInt16(y), ToInt16(z), ToInt16(x)), CountsS1(slot)));
  }

  /** The later titles' sector header read field by field from the cursor, the
      counts and sizes straight into the first element of the count block. */
  method ReadHeaderS23(f: Stream, prior: SecVCPCountS23) returns (h: HeaderRead, slot: SecVCPCountS23)
    modifies f
    ensures h == HeaderS23At(f.data, old(f.pos))
    ensures h.HeaderOk? ==> f.pos == old(f.pos) + S23_SECTOR_HEADER_SIZE
    ensures slot == CountsLeftS23(f.data, old(f.pos), prior)
  {
    slot := prior;
    var ok, unknown := f.ReadU64();
    if !ok { return HeaderShort, slot; }
    var y, z, vertex, color, x, polygon, misc;
    ok, y := f.ReadU16();
    if !ok { return HeaderShort, slot; }
    ok, z := f.ReadU16();
    if !ok { return HeaderShort, slot; }
    ok, vertex := f.ReadU8();
    if !ok { return HeaderShort, slot; }
    slot := slot.(vertex := vertex);
    ok, color := f.ReadU8();
    if !ok { return HeaderShort, slot; }
    slot := slot.(color := color);
    ok, x := f.ReadU16();
    if !ok { return HeaderShort, slot; }
    ok, polygon := f.ReadU16();
    if !ok { return HeaderShort, slot; }
    slot := slot.(polygon := polygon);
    ok, misc := f.ReadU16();
    if !ok { return HeaderShort, slot; }
    slot := slot.(polygonMisc := misc);
    h := HeaderOk(Header(unknown, SkyCoord(ToInt16(y), ToInt16(z), ToInt16(x)), CountsS23(slot)));
  }

  /** The earlier title's vertex, colour and polygon arrays read from the cursor. */
  method ReadBodyS1(f: Stream, h: Header) returns (r: SectorResult)
    requires h.counts.CountsS1?
    modifies f
    ensures r == BodyS1(f.data, old(f.pos), h)
  {
    var c := h.counts.s1;
    // calloc of zero elements yields NULL
    if c.vertex == 0 || c.color == 0 || c.polygon == 0 { return SectorFailed; }
    var ok, vs := f.Read(4 * c.vertex);
    if !ok { return SectorFailed; }
    var cs, ps;
    ok, cs := f.Read(4 * c.color);
    if !ok { return SectorFailed; }
    ok, ps := f.Read(8 * c.polygon);
    if !ok { return SectorFailed; }
    r := SectorOk(Sector(h.unknown, h.coord, h.counts, vs, cs, ps, None));
  }

  /** The later titles' vertex and colour arrays and polygon bytes read from the
      cursor; the misc buffer is allocated only after the polygon bytes are read. */
  method ReadBodyS23(f: Stream, h: Header) returns (r: SectorResult)
    requires h.counts.CountsS23?
    modifies f
    ensures r == BodyS23(f.data, old(f.pos), h)
  {
    var c := h.counts.s23;
    // calloc of zero elements yields NULL
    if c.vertex == 0 || c.color == 0 || c.polygon == 0 { return SectorFailed; }
    var ok, vs := f.Read(4 * c.vertex);
    if !ok { return SectorFailed; }
    var cs, ps, ms;
    ok, cs := f.Read(4 * c.color);
    if !ok { return SectorFailed; }
    ok, ps := f.Read(c.polygon);
    if !ok { return SectorFailed; }
    if c.polygonMisc == 0 { return SectorFailed; }
    ok, ms := f.Read(c.polygonMisc);
    if !ok { return SectorFailed; }
    r := SectorOk(Sector(h.unknown, h.coord, h.counts, vs, cs, ps, Some(ms)));
  }

  /** One earlier-title sector payload read from the cursor, with what its header
      reads leave in the first element of the count block. */
  method ReadPayloadS1(f: Stream, prior: SecVCPCountS1) returns (r: SectorResult, slot: SecVCPCountS1)
    modifies f
    ensures r == PayloadS1(f.data, old(f.pos))
    ensures slot == CountsLeftS1(f.data, old(f.pos), prior)
  {
    var h;
    h, slot := ReadHeaderS1(f, prior);
    match h {
      case HeaderShort => r := SectorFailed;
      case HeaderBadSentinel => r := SectorAborted;
      case HeaderOk(hd) => r := ReadBodyS1(f, hd);
    }
  }

  /** One later-title sector payload read from the cursor, with what its header
      reads leave in the first element of the count block. */
  method ReadPayloadS23(f: Stream, prior: SecVCPCountS23) returns (r: SectorResult, slot: SecVCPCountS23)
    modifies f
    ensures r == PayloadS23(f.data, old(f.pos))
    ensures slot == CountsLeftS23(f.data, old(f.pos), prior)
  {
    var h;
    h, slot := ReadHeaderS23(f, prior);
    match h {
      case HeaderShort => r := SectorFailed;
      case HeaderBadSentinel => r := SectorFailed;
      case HeaderOk(hd) => r := ReadBodyS23(f, hd);
    }
  }

  /** Sector i: its jump-table entry is read at the cursor, then the payload at the
      position that entry gives relative to the record's start. The outcome is the
      one `all` lists for sector i; a sector that is read is well formed. `slot` is
      what the reads leave in the first element of the count block, which held
      `prior`: for a sector that is read, its own counts. */
  method ReadSector(f: Stream, base: nat, i: nat, s1: bool, ghost all: seq<SectorResult>, prior: SectorCounts)
    returns (r: SectorResult, slot: SectorCounts)
    requires f.pos == JumpEntry(base, i) && i < |all| && Lists(all, f.data, base, s1)
    modifies f
    ensures r == all[i]
    ensures r.SectorOk? ==> WellFormed(r.sector, s1) && slot == r.sector.counts
    ensures slot == SectorCountsLeft(f.data, base, i, s1, prior)
  {
    var ok, entry := f.ReadU32();
    if !ok {
      r, slot := SectorFailed, prior;
    } else {
      f.Seek(base + entry);
      if s1 {
        var c;
        r, c := ReadPayloadS1(f, if prior.CountsS1? then prior.s1 else ZeroCountsS1.s1);
        slot := CountsS1(c);
      } else {
        var c;
        r, c := ReadPayloadS23(f, if prior.CountsS23? then prior.s23 else ZeroCountsS23.s23);
        slot := CountsS23(c);
      }
    }
    assert r == SectorAt(f.data, base, i, s1);
    if r.SectorOk? {
      DecodedSectorLeavesCounts(f.data, base, i, s1, prior);
    }
  }

  /** The allocations of sky_read: one zeroed table per per-sector field, each with
      one slot per sector, the misc table only when `misc` holds; nothing else
      changes. */
  method AllocateTables(sky: SpyroSky, s1: bool, misc: bool)
    requires sky.sectorCount != 0
    modifies sky
    ensures sky.Stores([]) && sky.CountsBlock([], s1)
    ensures sky.polygonsMisc != [] <==> misc
    ensures sky.sectorCount == old(sky.sectorCount) && sky.gameType == old(sky.gameType)
    ensures sky.background == old(sky.background) && sky.vcp == old(sky.vcp)
  {
    var n := sky.sectorCount;
    var unknown: seq<u64> := seq(n, _ => 0);
    var coordinates := seq(n, _ => SkyCoord(0, 0, 0));
    var zero := ZeroCounts(s1);
    var sectorVcp := seq(n, _ => zero);
    var none := NoBuffers(n);
    assert unknown == UnknownColumn([], n) && coordinates == CoordColumn([], n);
    assert sectorVcp == CountsColumn([], n, s1);
    assert none == VertexColumn([], n) == ColorColumn([], n) == PolygonColumn([], n) == MiscColumn([], n);
    sky.unknown, sky.coordinates, sky.sectorVcp := unknown, coordinates, sectorVcp;
    sky.vertices, sky.colors, sky.polygons := none, none, none;
    sky.polygonsMisc := if misc then none else [];
  }

  /** Storing one more sector into slot |ss| of tables that hold ss yields tables that
      hold ss + [sec]; a missing misc table stays missing. */
  lemma TablesSnoc(unknown: seq<u64>, coordinates: seq<SkyCoord>, vertices: seq<Option<seq<u8>>>,
                   colors: seq<Option<seq<u8>>>, polygons: seq<Option<seq<u8>>>,
                   polygonsMisc: seq<Option<seq<u8>>>, ss: seq<Sector>, sec: Sector, n: nat)
    requires TablesHold(unknown, coordinates, vertices, colors, polygons, polygonsMisc, ss, n) && |ss| < n
    ensures TablesHold(unknown[|ss| := sec.unknown], coordinates[|ss| := sec.coord],
                       vertices[|ss| := Some(sec.vertices)], colors[|ss| := Some(sec.colors)],
                       polygons[|ss| := Some(sec.polygons)],
                       if polygonsMisc == [] then [] else polygonsMisc[|ss| := sec.misc], ss + [sec], n)
  {
    var i, next := |ss|, ss + [sec];
    assert UnknownColumn(next, n) == UnknownColumn(ss, n)[i := sec.unknown];
    assert CoordColumn(next, n) == CoordColumn(ss, n)[i := sec.coord];
    assert VertexColumn(next, n) == VertexColumn(ss, n)[i := Some(sec.vertices)];
    assert ColorColumn(next, n) == ColorColumn(ss, n)[i := Some(sec.colors)];
    assert PolygonColumn(next, n) == PolygonColumn(ss, n)[i := Some(sec.polygons)];
    assert MiscColumn(next, n) == MiscColumn(ss, n)[i := sec.misc];
  }

  /** Reading one more sector's counts into the first element of the count block. */
  lemma CountsSnoc(sectorVcp: seq<SectorCounts>, ss: seq<Sector>, sec: Sector, n: nat, s1: bool)
    requires CountsHeld(sectorVcp, ss, n, s1)
    ensures CountsHeld(sectorVcp[0 := sec.counts], ss + [sec], n, s1)
  {
    assert CountsColumn(ss + [sec], n, s1) == CountsColumn(ss, n, s1)[0 := sec.counts];
  }

  /** One pass of sky_read's loop body after a sector was read: its fields go into
      slot `|done|` of every table, its counts into the first element of the count
      block, and its counts are added to the running totals. */
  method StoreSector(sky: SpyroSky, done: seq<Sector>, sec: Sector, s1: bool)
    requires sky.Stores(done) && sky.CountsBlock(done, s1) && |done| < sky.sectorCount
    requires s1 ==> sec.misc == None
    modifies sky
    ensures sky.Stores(done + [sec]) && sky.CountsBlock(done + [sec], s1)
    ensures sky.sectorVcp == old(sky.sectorVcp)[0 := sec.counts]
    ensures sky.vcp == AddCounts(old(sky.vcp), sec.counts)
    ensures sky.sectorCount == old(sky.sectorCount) && sky.gameType == old(sky.gameType)
    ensures sky.background == old(sky.background) && (sky.polygonsMisc == []) == (old(sky.polygonsMisc) == [])
  {
    var i := |done|;
    TablesSnoc(sky.unknown, sky.coordinates, sky.vertices, sky.colors, sky.polygons, sky.polygonsMisc,
               done, sec, sky.sectorCount as nat);
    CountsSnoc(sky.sectorVcp, done, sec, sky.sectorCount as nat, s1);
    sky.unknown := sky.unknown[i := sec.unknown];
    sky.coordinates := sky.coordinates[i := sec.coord];
    sky.sectorVcp := sky.sectorVcp[0 := sec.counts];
    sky.vertices := sky.vertices[i := Some(sec.vertices)];
    sky.colors := sky.colors[i := Some(sec.colors)];
    sky.polygons := sky.polygons[i := Some(sec.polygons)];
    if sky.polygonsMisc != [] {
      sky.polygonsMisc := sky.polygonsMisc[i := sec.misc];
    }
    sky.vcp := AddCounts(sky.vcp, sec.counts);
  }

  /** One pass of sky_read's loop: sector i is read through its jump-table entry and,
      when it decodes, stored in slot i; the cursor then moves to the next entry. The
      counts the reads reach land in the first element of the count block; a sector
      that fails or aborts leaves the rest of the structure as it was. */
  method ReadAndStore(f: Stream, sky: SpyroSky, base: nat, s1: bool, ghost all: seq<SectorResult>, i: nat, done: seq<Sector>)
    returns (r: SectorResult)
    requires f.pos == JumpEntry(base, i) && i == |done| < |all| == sky.sectorCount && Lists(all, f.data, base, s1)
    requires sky.Stores(done) && sky.CountsBlock(done, s1) && sky.vcp == Totals(done)
    modifies f, sky
    ensures r == all[i]
    ensures sky.sectorVcp == old(sky.sectorVcp)[0 := SectorCountsLeft(f.data, base, i, s1, old(sky.sectorVcp)[0])]
    ensures !r.SectorOk? ==>
              && sky.unknown == old(sky.unknown) && sky.coordinates == old(sky.coordinates)
              && sky.vertices == old(sky.vertices) && sky.colors == old(sky.colors)
              && sky.polygons == old(sky.polygons) && sky.polygonsMisc == old(sky.polygonsMisc)
              && sky.vcp == old(sky.vcp)
    ensures r.SectorOk? ==>
              && sky.Stores(done + [r.sector]) && sky.CountsBlock(done + [r.sector], s1)
              && sky.vcp == Totals(done + [r.sector]) && f.pos == JumpEntry(base, i + 1)
    ensures sky.sectorCount == old(sky.sectorCount) && sky.gameType == old(sky.gameType)
    ensures sky.background == old(sky.background) && (sky.polygonsMisc == []) == (old(sky.polygonsMisc) == [])
  {
    var sector := f.Tell();
    var slot;
    r, slot := ReadSector(f, base, i, s1, all, sky.sectorVcp[0]);
    if r.SectorOk? {
      StoreSector(sky, done, r.sector, s1);
      assert (done + [r.sector])[..|done|] == done;
      f.Seek(sector + 4);
    } else {
      sky.sectorVcp := sky.sectorVcp[0 := slot];
    }
  }

  /** The loop of sky_read: sector after sector is read into its slots, and the loop
      stops at the first sector that fails or aborts. It yields the walk over the
      listed sectors; when every sector is read the structure holds them all, the running
      totals are their sums and the cursor rests after the jump table. Either way
      the count block holds in its first element what the reads of the walked
      sectors left there. */
  method ReadSectors(f: Stream, sky: SpyroSky, base: nat, s1: bool, ghost all: seq<SectorResult>)
    returns (rs: SectorsResult)
    requires f.pos == JumpEntry(base, 0)
    requires |all| == sky.sectorCount && Lists(all, f.data, base, s1)
    requires sky.Stores([]) && sky.CountsBlock([], s1) && sky.vcp == ZeroVCP
    requires !s1 ==> sky.polygonsMisc != []
    modifies f, sky
    ensures rs == Walk(all)
    ensures sky.sectorCount == old(sky.sectorCount) && sky.gameType == old(sky.gameType)
    ensures sky.background == old(sky.background) && (sky.polygonsMisc == []) == (old(sky.polygonsMisc) == [])
    ensures sky.Valid()
    ensures sky.sectorVcp == SlotBlock(|all|, s1, SlotFrom(all, f.data, base, s1, 0, ZeroCounts(s1)))
    ensures rs.AllRead? ==>
              && |rs.sectors| == sky.sectorCount && sky.Stores(rs.sectors) && sky.CountsBlock(rs.sectors, s1)
              && sky.vcp == Totals(rs.sectors) && f.pos == JumpEntry(base, sky.sectorCount)
  {
    var n := sky.sectorCount;
    var i: u32 := 0;
    var done: seq<Sector> := [];
    while i < n
      invariant 0 <= i <= n && |done| == i
      invariant f.pos == JumpEntry(base, i)
      invariant sky.sectorCount == n && sky.background == old(sky.background)
      invariant sky.gameType == old(sky.gameType) && (sky.polygonsMisc == []) == (old(sky.polygonsMisc) == [])
      invariant Walk(all[..i]) == AllRead(done)
      invariant sky.Stores(done) && sky.CountsBlock(done, s1)
      invariant sky.vcp == Totals(done)
      invariant SlotFrom(all, f.data, base, s1, 0, ZeroCounts(s1)) == SlotFrom(all, f.data, base, s1, i as nat, sky.sectorVcp[0])
    {
      ghost var slot := sky.sectorVcp[0];
      SlotStep(all, f.data, base, s1, i as nat, slot);
      var r := ReadAndStore(f, sky, base, s1, all, i as nat, done);
      WalkPrefixStep(all, i as nat);
      if !r.SectorOk? {
        SlotBlockSet(n as nat, s1, slot, sky.sectorVcp[0]);
      }
      match r {
        case SectorFailed =>
          StoppedStays(all, i + 1);
          return StoppedFailed;
        case SectorAborted =>
          StoppedStays(all, i + 1);
          return StoppedAborted;
        case SectorOk(sec) =>
          done := done + [sec];
      }
      i := i + 1;
    }
    assert all[..i] == all;
    rs := AllRead(done);
  }

  /** sky_read. With a stream, a structure and a non-zero game type it decodes the sky
      record at the cursor exactly as `Decode` does: on success the structure holds the
      decoded record and the cursor rests after the jump table; on failure the
      structure is released; a bad sentinel aborts. Without a stream or a game type
      the structure is released and nothing is read. */
  method SkyRead(f: Stream?, sky: SpyroSky?, gameType: bv32) returns (exit: Exit)
    requires sky != null ==> sky.Valid()
    requires gameType == 0 || KnownGame(gameType)
    modifies f, sky
    ensures f == null || sky == null || gameType == 0 ==> exit == Returned(false)
    ensures f != null && (sky == null || gameType == 0) ==> f.pos == old(f.pos)
    ensures sky != null && (f == null || gameType == 0) ==>
              && sky.Valid() && sky.Cleared() && sky.gameType == old(sky.gameType)
              && sky.sectorVcp == old(sky.sectorVcp)
              && sky.background == if old(sky.sectorCount) == 0 then old(sky.background) else 0
    ensures f != null && sky != null && gameType != 0 ==>
              var d := Decode(f.data, old(f.pos), IsS1(gameType));
              && (exit == Aborted <==> d == DecodeAborted)
              && (exit == Returned(true) <==> d.Decoded?)
    ensures f != null && sky != null && gameType != 0 && exit == Returned(true) ==>
              Holds(sky, Decode(f.data, old(f.pos), IsS1(gameType)).sectors, gameType)
              && sky.background == Decode(f.data, old(f.pos), IsS1(gameType)).background
              && f.pos == JumpEntry(old(f.pos), sky.sectorCount)
    ensures f != null && sky != null && gameType != 0 && exit == Returned(false) ==>
              && sky.Valid() && sky.Cleared() && sky.gameType == old(sky.gameType)
              && sky.background == BackgroundLeftOnFailure(f.data, old(f.pos),
                                                           if old(sky.sectorCount) == 0 then old(sky.background) else 0)
    ensures f != null && sky != null && gameType != 0 ==>
              sky.sectorVcp == CountBlockLeft(f.data, old(f.pos), IsS1(gameType), old(sky.sectorVcp))
  {
    if f == null || sky == null || gameType == 0 {
      SkyFree(sky);
      return Returned(false);
    }
    ghost var d;
    exit, d := ReadAtCursor(f, sky, gameType);
  }

  /** sky_read once its arguments were checked: the structure is released, the record
      at the cursor is read, and a read that fails releases the structure again. */
  method ReadAtCursor(f: Stream, sky: SpyroSky, gameType: bv32) returns (exit: Exit, ghost d: Decoding)
    requires sky.Valid() && KnownGame(gameType)
    modifies f, sky
    ensures d == Decode(f.data, old(f.pos), IsS1(gameType))
    ensures exit == Aborted <==> d == DecodeAborted
    ensures exit == Returned(true) <==> d.Decoded?
    ensures exit == Returned(true) ==>
              Holds(sky, d.sectors, gameType) && sky.background == d.background
              && f.pos == JumpEntry(old(f.pos), sky.sectorCount)
    ensures exit == Returned(false) ==>
              && sky.Valid() && sky.Cleared() && sky.gameType == old(sky.gameType)
              && sky.background == BackgroundLeftOnFailure(f.data, old(f.pos),
                                                           if old(sky.sectorCount) == 0 then old(sky.background) else 0)
    ensures sky.sectorVcp == CountBlockLeft(f.data, old(f.pos), IsS1(gameType), old(sky.sectorVcp))
  {
    var base := f.Tell();
    SkyFree(sky);
    exit, d := ReadDecoded(f, sky, base, gameType);
    if exit == Returned(false) {
      SkyFree(sky);
    }
  }

  /** The record read of ReadRecord, with its outcome stated as the decoding of the
      record. */
  method ReadDecoded(f: Stream, sky: SpyroSky, base: nat, gameType: bv32) returns (exit: Exit, ghost d: Decoding)
    requires KnownGame(gameType) && f.pos == base
    requires sky.Valid() && sky.Cleared()
    modifies f, sky
    ensures d == Decode(f.data, base, IsS1(gameType))
    ensures exit == Aborted <==> d == DecodeAborted
    ensures exit == Returned(true) <==> d.Decoded?
    ensures exit == Returned(true) ==>
              Holds(sky, d.sectors, gameType) && sky.background == d.background
              && f.pos == JumpEntry(base, sky.sectorCount)
    ensures exit == Returned(false) ==>
              && sky.Valid() && sky.gameType == old(sky.gameType)
              && BackgroundLeftOnFailure(f.data, base, old(sky.background)) ==
                   if sky.sectorCount == 0 then sky.background else 0
    ensures sky.sectorVcp == CountBlockLeft(f.data, base, IsS1(gameType), old(sky.sectorVcp))
  {
    ghost var all, rs;
    exit, all, rs := ReadRecord(f, sky, base, gameType);
    ExitFollowsDecode(f.data, base, IsS1(gameType), all, rs, exit);
    if base + SKY_HEADER_SIZE <= |f.data| && U32At(f.data, base + 8) != 0 {
      BlockListed(f.data, base, IsS1(gameType), all, old(sky.sectorVcp));
    }
    d := Decode(f.data, base, IsS1(gameType));
  }

  /** The outcome ReadRecord reports, stated through the walk over the listed sectors,
      is the outcome of the reference decoder. */
  lemma ExitFollowsDecode(data: seq<u8>, base: nat, s1: bool, all: seq<SectorResult>, rs: SectorsResult, exit: Exit)
    requires base + SKY_HEADER_SIZE > |data| || U32At(data, base + 8) == 0 ==> exit == Returned(false)
    requires base + SKY_HEADER_SIZE <= |data| && U32At(data, base + 8) != 0 ==>
               && |all| == U32At(data, base + 8) && Lists(all, data, base, s1) && rs == Walk(all)
               && exit == ExitOf(rs)
    requires exit == Returned(true) ==> rs.AllRead?
    ensures exit == Aborted <==> Decode(data, base, s1) == DecodeAborted
    ensures exit == Returned(true) <==> Decode(data, base, s1).Decoded?
    ensures exit == Returned(true) ==>
              && Decode(data, base, s1).sectors == rs.sectors
              && Decode(data, base, s1).background == LeWord32(data[base + 4 .. base + 8])
  {
    if base + SKY_HEADER_SIZE <= |data| && U32At(data, base + 8) != 0 {
      DecodeListed(data, base, s1, all);
    }
  }

  /** What sky_read returns once the sectors were walked. */
  function ExitOf(rs: SectorsResult): (exit: Exit)
    ensures exit == Returned(true) <==> rs.AllRead?
    ensures exit == Aborted <==> rs == StoppedAborted
  {
    match rs
    case AllRead(_) => Returned(true)
    case StoppedFailed => Returned(false)
    case StoppedAborted => Aborted
  }

  /** What a successful read leaves in the structure: the game type, one slot per
      sector holding that sector, the count block as the reads left it, the totals of
      all sectors, and the misc table exactly when the game type sets the Spyro 2 or
      Spyro 3 bit (even when the Spyro 1 bit chooses the earlier layout). */
  ghost predicate Holds(sky: SpyroSky, ss: seq<Sector>, gameType: bv32)
    reads sky
  {
    && sky.Valid() && sky.gameType == gameType
    && sky.sectorCount == |ss| && sky.Stores(ss)
    && sky.vcp == Totals(ss)
    && sky.CountsBlock(ss, IsS1(gameType))
    && (sky.polygonsMisc != [] <==> HasMiscPolygons(gameType))
  }

  /** The body of sky_read after the release: the record header, then the tables and
      the sectors. On failure the structure is still valid for the release, and the
      background it holds is what the release will leave or clear. */
  method ReadRecord(f: Stream, sky: SpyroSky, base: nat, gameType: bv32)
    returns (exit: Exit, ghost all: seq<SectorResult>, ghost rs: SectorsResult)
    requires KnownGame(gameType) && f.pos == base
    requires sky.Valid() && sky.Cleared()
    modifies f, sky
    ensures base + SKY_HEADER_SIZE > |f.data| || U32At(f.data, base + 8) == 0 ==> exit == Returned(false)
    ensures base + SKY_HEADER_SIZE <= |f.data| && U32At(f.data, base + 8) != 0 ==>
              && |all| == U32At(f.data, base + 8) && Lists(all, f.data, base, IsS1(gameType))
              && rs == Walk(all) && exit == ExitOf(rs)
              && sky.sectorVcp == SlotBlock(|all|, IsS1(gameType), SlotFrom(all, f.data, base, IsS1(gameType), 0, ZeroCounts(IsS1(gameType))))
    ensures base + SKY_HEADER_SIZE > |f.data| || U32At(f.data, base + 8) == 0 ==> sky.sectorVcp == old(sky.sectorVcp)
    ensures exit == Returned(true) ==>
              && rs.AllRead? && Holds(sky, rs.sectors, gameType) && sky.background == LeWord32(f.data[base + 4 .. base + 8])
              && f.pos == JumpEntry(base, sky.sectorCount)
    ensures exit == Returned(false) ==>
              && sky.Valid() && sky.gameType == old(sky.gameType)
              && BackgroundLeftOnFailure(f.data, base, old(sky.background)) ==
                   if sky.sectorCount == 0 then sky.background else 0
  {
    all, rs := [], StoppedFailed;
    var backgroundOk, background, countOk, count := ReadSkyHeader(f);
    if !backgroundOk {
      return Returned(false), all, rs;
    }
    sky.background := background;
    // calloc of zero elements yields NULL
    if !countOk || count == 0 {
      return Returned(false), all, rs;
    }
    exit, all, rs := ReadTables(f, sky, base, gameType, count);
  }

  /** The header reads of sky_read: the first word is skipped, then the background
      colour and the sector count are read in turn. */
  method ReadSkyHeader(f: Stream) returns (backgroundOk: bool, background: bv32, countOk: bool, count: u32)
    modifies f
    ensures backgroundOk <==> old(f.pos) + 8 <= |f.data|
    ensures backgroundOk ==> background == LeWord32(f.data[old(f.pos) + 4 .. old(f.pos) + 8])
    ensures countOk <==> old(f.pos) + SKY_HEADER_SIZE <= |f.data|
    ensures countOk ==> count == U32At(f.data, old(f.pos) + 8) && f.pos == JumpEntry(old(f.pos), 0)
  {
    f.Skip(4);
    backgroundOk, background := f.ReadWord32();
    if !backgroundOk {
      return false, 0, false, 0;
    }
    countOk, count := f.ReadU32();
  }

  /** The last step of a successful sky_read: the game type is recorded, and the
      structure then holds the sectors it read. */
  method RecordGameType(sky: SpyroSky, ss: seq<Sector>, gameType: bv32)
    requires sky.sectorCount == |ss| && sky.Stores(ss) && sky.vcp == Totals(ss)
    requires sky.CountsBlock(ss, IsS1(gameType)) && (sky.polygonsMisc != [] <==> HasMiscPolygons(gameType))
    modifies sky
    ensures Holds(sky, ss, gameType)
    ensures sky.sectorCount == old(sky.sectorCount) && sky.background == old(sky.background)
    ensures sky.sectorVcp == old(sky.sectorVcp)
  {
    sky.gameType := gameType;
  }

  /** The allocations and the loop of sky_read for a record of `count` sectors;
      `all` lists the decoded outcome of every sector, and the game type is set once
      every sector is read. */
  method ReadTables(f: Stream, sky: SpyroSky, base: nat, gameType: bv32, count: u32)
    returns (exit: Exit, ghost all: seq<SectorResult>, rs: SectorsResult)
    requires KnownGame(gameType) && count != 0 && sky.Valid() && sky.Cleared()
    requires f.pos == JumpEntry(base, 0)
    modifies f, sky
    ensures |all| == sky.sectorCount && Lists(all, f.data, base, IsS1(gameType))
    ensures rs == Walk(all) && exit == ExitOf(rs)
    ensures exit == Returned(true) ==> rs.AllRead? && Holds(sky, rs.sectors, gameType) && f.pos == JumpEntry(base, sky.sectorCount)
    ensures sky.sectorCount == count && sky.background == old(sky.background)
    ensures exit == Returned(false) ==> sky.Valid() && sky.gameType == old(sky.gameType)
    ensures sky.sectorVcp == SlotBlock(count as nat, IsS1(gameType), SlotFrom(all, f.data, base, IsS1(gameType), 0, ZeroCounts(IsS1(gameType))))
  {
    var s1 := IsS1(gameType);
    sky.sectorCount := count;
    all := Listing(f.data, base, s1, count as nat);
    AllocateTables(sky, s1, HasMiscPolygons(gameType));
    rs := ReadSectors(f, sky, base, s1, all);
    if rs.AllRead? {
      RecordGameType(sky, rs.sectors, gameType);
    }
    exit := ExitOf(rs);
  }
}
