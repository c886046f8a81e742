/** The sky record as it lies in the level file, read by a pure reference decoder that
    addresses every field by its offset. `base` is the position of the record's first
    byte; all jump-table offsets are relative to it.

      base+0   total size (skipped)
      base+4   background colour
      base+8   sector count n
      base+12  jump table: n 4-byte offsets, entry i at base+12+4i

    A sector's payload starts at base + (its jump offset). Earlier title:
      +0 unknown (8)  +8 y  +10 z  +12 vertex count  +14 x  +16 polygon count
      +18 colour count  +20 sentinel 0xFFFFFFFF  +24 vertices, colours, polygons
    Later titles:
      +0 unknown (8)  +8 y  +10 z  +12 vertex count (1)  +13 colour count (1)
      +14 x  +16 polygon byte size  +18 misc byte size  +20 vertices, colours,
      polygon bytes, misc bytes */
module SkyFormat {
  import opened Bytes
  import opened SkyLayout

  /** Total size, background colour and sector count. */
  const SKY_HEADER_SIZE: nat := 12
  const S1_SECTOR_HEADER_SIZE: nat := 24
  const S23_SECTOR_HEADER_SIZE: nat := 20
  /** What the earlier title stores after each sector header. */
  const SENTINEL: u32 := 0xFFFF_FFFF

  /** Everything the decoder keeps of one sector, slot by slot. */
  datatype Sector = Sector(
    unknown: u64,
    coord: SkyCoord,
    counts: SectorCounts,
    vertices: seq<u8>,
    colors: seq<u8>,
    polygons: seq<u8>,
    misc: Option<seq<u8>>)

  datatype SectorResult = SectorOk(sector: Sector) | SectorFailed | SectorAborted

  datatype SectorsResult = AllRead(sectors: seq<Sector>) | StoppedFailed | StoppedAborted

  /** What decoding a sky record yields: the record, a failure the decoder returns
      from, or a failed sentinel assertion that ends the process. */
  datatype Decoding = Decoded(background: bv32, sectors: seq<Sector>) | DecodeFailed | DecodeAborted

  // ---------------------------------------------------------------- sectors

  /** An earlier-title sector: every count non-zero, each array exactly as long as
      its count says, no misc polygons. */
  predicate WellFormedS1(sec: Sector) {
    && sec.counts.CountsS1?
    && var c := sec.counts.s1;
    && c.vertex != 0 && c.color != 0 && c.polygon != 0
    && |sec.vertices| == 4 * c.vertex
    && |sec.colors| == 4 * c.color
    && |sec.polygons| == 8 * c.polygon
    && sec.misc == None
  }

  /** A later-title sector: every count and size non-zero, the word arrays as long as
      their counts, the polygon and misc buffers exactly as many bytes as their sizes. */
  predicate WellFormedS23(sec: Sector) {
    && sec.counts.CountsS23?
    && var c := sec.counts.s23;
    && c.vertex != 0 && c.color != 0 && c.polygon != 0 && c.polygonMisc != 0
    && |sec.vertices| == 4 * c.vertex
    && |sec.colors| == 4 * c.color
    && |sec.polygons| == c.polygon
    && sec.misc.Some? && |sec.misc.value| == c.polygonMisc
  }

  predicate WellFormed(sec: Sector, s1: bool) {
    if s1 then WellFormedS1(sec) else WellFormedS23(sec)
  }

  /** The fixed part of a sector payload: what is read before the arrays. */
  datatype Header = Header(unknown: u64, coord: SkyCoord, counts: SectorCounts)

  datatype HeaderRead = HeaderOk(header: Header) | HeaderShort | HeaderBadSentinel

  /** The earlier title's 24-byte sector header at `s`. It is short when it does not
      fit in the file, and rejected when its last word, at +20, is not the sentinel. */
  function HeaderS1At(data: seq<u8>, s: nat): (h: HeaderRead)
    ensures h.HeaderShort? <==> s + S1_SECTOR_HEADER_SIZE > |data|
    ensures h.HeaderBadSentinel? <==> s + S1_SECTOR_HEADER_SIZE <= |data| && U32At(data, s + 20) != SENTINEL
    ensures h.HeaderOk? ==> h.header.counts.CountsS1?
  {
    if s + S1_SECTOR_HEADER_SIZE > |data| then HeaderShort
    else if U32At(data, s + 20) != SENTINEL then HeaderBadSentinel
    else
      HeaderOk(Header(
        U64At(data, s),
        SkyCoord(ToInt16(U16At(data, s + 8)), ToInt16(U16At(data, s + 10)), ToInt16(U16At(data, s + 14))),
        CountsS1(SecVCPCountS1(U16At(data, s + 12), U16At(data, s + 18), U16At(data, s + 16)))))
  }

  /** The later titles' 20-byte sector header at `s`; it has no sentinel. */
  function HeaderS23At(data: seq<u8>, s: nat): (h: HeaderRead)
    ensures h.HeaderShort? <==> s + S23_SECTOR_HEADER_SIZE > |data|
    ensures !h.HeaderBadSentinel?
    ensures h.HeaderOk? ==> h.header.counts.CountsS23?
  {
    if s + S23_SECTOR_HEADER_SIZE > |data| then HeaderShort
    else
      HeaderOk(Header(
        U64At(data, s),
        SkyCoord(ToInt16(U16At(data, s + 8)), ToInt16(U16At(data, s + 10)), ToInt16(U16At(data, s + 14))),
        CountsS23(SecVCPCountS23(data[s + 12], data[s + 13], U16At(data, s + 16), U16At(data, s + 18)))))
  }

  /** The arrays of an earlier-title sector, starting at `p`. A zero count fails (its
      allocation yields null), and so do arrays that do not fit. */
  function BodyS1(data: seq<u8>, p: nat, h: Header): (r: SectorResult)
    requires h.counts.CountsS1?
    ensures r.SectorOk? ==> WellFormedS1(r.sector) && r.sector.counts == h.counts
    ensures !r.SectorAborted?
  {
    var c := h.counts.s1;
    if c.vertex == 0 || c.color == 0 || c.polygon == 0 then SectorFailed
    else
      var cs := p + 4 * c.vertex;
      var ps := cs + 4 * c.color;
      var end := ps + 8 * c.polygon;
      if end > |data| then SectorFailed
      else
        SectorOk(Sector(h.unknown, h.coord, h.counts,
          data[p .. cs], data[cs .. ps], data[ps .. end], None))
  }

  /** The buffers of a later-title sector, starting at `p`: vertices, colours, then
      the polygon and misc bytes. A zero count or size fails, and so do buffers that
      do not fit. */
  function BodyS23(data: seq<u8>, p: nat, h: Header): (r: SectorResult)
    requires h.counts.CountsS23?
    ensures r.SectorOk? ==> WellFormedS23(r.sector) && r.sector.counts == h.counts
    ensures !r.SectorAborted?
  {
    var c := h.counts.s23;
    if c.vertex == 0 || c.color == 0 || c.polygon == 0 || c.polygonMisc == 0 then SectorFailed
    else
      var cs := p + 4 * c.vertex;
      var ps := cs + 4 * c.color;
      var ms := ps + c.polygon;
      var end := ms + c.polygonMisc;
      if end > |data| then SectorFailed
      else
        SectorOk(Sector(h.unknown, h.coord, h.counts,
          data[p .. cs], data[cs .. ps], data[ps .. ms], Some(data[ms .. end])))
  }

  /** The earlier title's sector payload at `s`: the header, then the arrays. A bad
      sentinel aborts; every other problem fails. */
  function PayloadS1(data: seq<u8>, s: nat): (r: SectorResult)
    ensures r.SectorOk? ==> WellFormedS1(r.sector)
    ensures r.SectorAborted? <==> s + S1_SECTOR_HEADER_SIZE <= |data| && U32At(data, s + 20) != SENTINEL
  {
    match HeaderS1At(data, s)
    case HeaderShort => SectorFailed
    case HeaderBadSentinel => SectorAborted
    case HeaderOk(h) => BodyS1(data, s + S1_SECTOR_HEADER_SIZE, h)
  }

  /** The later titles' sector payload at `s`. There is no sentinel, so it never aborts. */
  function PayloadS23(data: seq<u8>, s: nat): (r: SectorResult)
    ensures r.SectorOk? ==> WellFormedS23(r.sector)
    ensures !r.SectorAborted?
  {
    match HeaderS23At(data, s)
    case HeaderShort => SectorFailed
    case HeaderBadSentinel => SectorFailed
    case HeaderOk(h) => BodyS23(data, s + S23_SECTOR_HEADER_SIZE, h)
  }

  function Payload(data: seq<u8>, s: nat, s1: bool): SectorResult {
    if s1 then PayloadS1(data, s) else PayloadS23(data, s)
  }

  /** Where sector i's jump-table entry lies. */
  function JumpEntry(base: nat, i: nat): nat {
    base + SKY_HEADER_SIZE + 4 * i
  }

  /** Where sector i's payload starts: the record's start plus its jump-table entry. */
  function SectorStart(data: seq<u8>, base: nat, i: nat): nat
    requires JumpEntry(base, i) + 4 <= |data|
  {
    base + U32At(data, JumpEntry(base, i))
  }

  /** Sector i's entry can be read and its earlier-title header fits, but the last
      word of that 24-byte header, at +20, is not the sentinel. */
  predicate BadSentinelAt(data: seq<u8>, base: nat, i: nat) {
    && JumpEntry(base, i) + 4 <= |data|
    && SectorStart(data, base, i) + S1_SECTOR_HEADER_SIZE <= |data|
    && U32At(data, SectorStart(data, base, i) + 20) != SENTINEL
  }

  /** Sector i: its jump-table entry, then the payload that entry points at. A sector
      that decodes is well formed for the layout, and only a bad sentinel of the
      earlier title aborts. */
  function SectorAt(data: seq<u8>, base: nat, i: nat, s1: bool): (r: SectorResult)
    ensures r.SectorOk? ==> WellFormed(r.sector, s1)
    ensures r.SectorAborted? <==> s1 && BadSentinelAt(data, base, i)
  {
    var e := JumpEntry(base, i);
    if e + 4 > |data| then SectorFailed
    else Payload(data, base + U32At(data, e), s1)
  }

  /** The walk over per-sector outcomes: sectors are taken in order, and the first
      one that does not decode stops the walk and decides its outcome. */
  function Walk(rs: seq<SectorResult>): (w: SectorsResult)
    ensures w.AllRead? ==> |w.sectors| == |rs|
    decreases |rs|
  {
    if rs == [] then AllRead([])
    else
      match Walk(rs[..|rs| - 1])
      case AllRead(ss) =>
        (match rs[|rs| - 1]
         case SectorOk(sec) => AllRead(ss + [sec])
         case SectorFailed => StoppedFailed
         case SectorAborted => StoppedAborted)
      case StoppedFailed => StoppedFailed
      case StoppedAborted => StoppedAborted
  }

  /** The outcomes of sectors 0 .. k-1, each decoded on its own. */
  function SectorResults(data: seq<u8>, base: nat, s1: bool, k: nat): (rs: seq<SectorResult>)
    ensures |rs| == k
  {
    seq(k, j requires 0 <= j < k => SectorAt(data, base, j, s1))
  }

  /** rs lists, index by index, what each of its sectors decodes to. The listing is
      only unfolded for a sector whose decoding is mentioned, so code that walks the
      sectors can refer to rs without the whole decoder coming into play. */
  ghost predicate Lists(rs: seq<SectorResult>, data: seq<u8>, base: nat, s1: bool) {
    forall j {:trigger SectorAt(data, base, j, s1)} :: 0 <= j < |rs| ==> rs[j] == SectorAt(data, base, j, s1)
  }

  /** Every record has a listing of its first k sectors: their separate outcomes. */
  lemma Listing(data: seq<u8>, base: nat, s1: bool, k: nat) returns (rs: seq<SectorResult>)
    ensures |rs| == k && Lists(rs, data, base, s1)
  {
    rs := SectorResults(data, base, s1, k);
  }

  /** The sky record at `base`: its sectors are read in order. A header that does
      not fit fails, and so does a sector count of 0 (its allocation yields null). A
      decoded record has one sector per count, and the later titles never abort. */
  function Decode(data: seq<u8>, base: nat, s1: bool): (d: Decoding)
    ensures d.Decoded? ==> base + SKY_HEADER_SIZE <= |data| && |d.sectors| == U32At(data, base + 8) != 0
    ensures !s1 ==> d != DecodeAborted
  {
    if base + SKY_HEADER_SIZE > |data| then DecodeFailed
    else
      var n := U32At(data, base + 8);
      if n == 0 then DecodeFailed
      else
        var rs := SectorResults(data, base, s1, n);
        AbortedExactly(rs);
        match Walk(rs)
        case AllRead(ss) => Decoded(LeWord32(data[base + 4 .. base + 8]), ss)
        case StoppedFailed => DecodeFailed
        case StoppedAborted => DecodeAborted
  }

  /** With a header that fits and a non-zero count, the record decodes as the walk
      over any listing of its sectors does. */
  lemma DecodeListed(data: seq<u8>, base: nat, s1: bool, all: seq<SectorResult>)
    requires base + SKY_HEADER_SIZE <= |data| && |all| == U32At(data, base + 8) != 0
    requires Lists(all, data, base, s1)
    ensures Decode(data, base, s1) ==
              match Walk(all)
              case AllRead(ss) => Decoded(LeWord32(data[base + 4 .. base + 8]), ss)
              case StoppedFailed => DecodeFailed
              case StoppedAborted => DecodeAborted
  {
    ListedResults(data, base, s1, all);
  }

  /** A listing of k sectors is the sequence of their outcomes. */
  lemma ListedResults(data: seq<u8>, base: nat, s1: bool, all: seq<SectorResult>)
    requires Lists(all, data, base, s1)
    ensures all == SectorResults(data, base, s1, |all|)
  {
    var rs := SectorResults(data, base, s1, |all|);
    forall j | 0 <= j < |all|
      ensures all[j] == rs[j]
    {
      assert all[j] == SectorAt(data, base, j, s1);
    }
  }

  /** The background colour a failed decode leaves behind. `prior` is the value after
      the release at the start of the decode. Once a non-zero sector count has been
      read, the cleanup clears the colour; before that the cleanup returns early and
      leaves whatever was last read. */
  function BackgroundLeftOnFailure(data: seq<u8>, base: nat, prior: bv32): bv32 {
    if base + 8 > |data| then prior
    else if base + SKY_HEADER_SIZE > |data| || U32At(data, base + 8) == 0 then LeWord32(data[base + 4 .. base + 8])
    else 0
  }

  // ---------------------------------------------------------------- the walk

  /** Extending the outcomes by one sector extends the walk by that sector. */
  lemma WalkSnoc(rs: seq<SectorResult>, r: SectorResult)
    ensures Walk(rs + [r]) ==
              match Walk(rs)
              case AllRead(ss) =>
                (match r
                 case SectorOk(sec) => AllRead(ss + [sec])
                 case SectorFailed => StoppedFailed
                 case SectorAborted => StoppedAborted)
              case StoppedFailed => StoppedFailed
              case StoppedAborted => StoppedAborted
  {
    assert (rs + [r])[..|rs|] == rs;
  }

  /** WalkSnoc for the walk over a prefix of the listed sectors grown by one. */
  lemma WalkPrefixStep(all: seq<SectorResult>, i: nat)
    requires i < |all|
    ensures Walk(all[..i + 1]) ==
              match Walk(all[..i])
              case AllRead(ss) =>
                (match all[i]
                 case SectorOk(sec) => AllRead(ss + [sec])
                 case SectorFailed => StoppedFailed
                 case SectorAborted => StoppedAborted)
              case StoppedFailed => StoppedFailed
              case StoppedAborted => StoppedAborted
  {
    assert all[..i + 1] == all[..i] + [all[i]];
    WalkSnoc(all[..i], all[i]);
  }

  /** Once the walk has stopped, further sectors do not change its outcome. */
  lemma {:induction false} StoppedStays(rs: seq<SectorResult>, k: nat)
    requires k <= |rs|
    requires !Walk(rs[..k]).AllRead?
    ensures Walk(rs) == Walk(rs[..k])
    decreases |rs|
  {
    if |rs| > k {
      assert rs[..|rs| - 1][..k] == rs[..k];
      StoppedStays(rs[..|rs| - 1], k);
    } else {
      assert rs[..k] == rs;
    }
  }

  /** The walk reads every sector exactly when each one decodes, and then it yields
      exactly those sectors, in order. */
  lemma {:induction false} AllReadExactly(rs: seq<SectorResult>)
    ensures Walk(rs).AllRead? <==> forall j :: 0 <= j < |rs| ==> rs[j].SectorOk?
    ensures Walk(rs).AllRead? ==>
              |Walk(rs).sectors| == |rs| && forall j :: 0 <= j < |rs| ==> rs[j] == SectorOk(Walk(rs).sectors[j])
    decreases |rs|
  {
    if rs != [] {
      var init := rs[..|rs| - 1];
      AllReadExactly(init);
      if !Walk(init).AllRead? {
        var j :| 0 <= j < |init| && !init[j].SectorOk?;
        assert !rs[j].SectorOk?;
      }
    }
  }

  /** The walk aborts exactly when some sector aborts and every sector before it
      decodes. */
  lemma {:induction false} AbortedExactly(rs: seq<SectorResult>)
    ensures Walk(rs) == StoppedAborted <==>
              exists m :: 0 <= m < |rs| && rs[m].SectorAborted? && forall j :: 0 <= j < m ==> rs[j].SectorOk?
    decreases |rs|
  {
    if rs != [] {
      var init := rs[..|rs| - 1];
      AbortedExactly(init);
      AllReadExactly(init);
      var m := |rs| - 1;
      if Walk(init).AllRead? && rs[m].SectorAborted? {
        assert 0 <= m < |rs| && rs[m].SectorAborted? && forall j :: 0 <= j < m ==> rs[j].SectorOk?;
      }
      if Walk(rs) == StoppedAborted {
        if Walk(init) == StoppedAborted {
          var m' :| 0 <= m' < |init| && init[m'].SectorAborted? && forall j :: 0 <= j < m' ==> init[j].SectorOk?;
          assert rs[m'].SectorAborted? && forall j :: 0 <= j < m' ==> rs[j].SectorOk?;
        }
      }
      if exists m' :: 0 <= m' < |rs| && rs[m'].SectorAborted? && forall j :: 0 <= j < m' ==> rs[j].SectorOk? {
        var m' :| 0 <= m' < |rs| && rs[m'].SectorAborted? && forall j :: 0 <= j < m' ==> rs[j].SectorOk?;
        if m' < |init| {
          assert init[m'].SectorAborted? && forall j :: 0 <= j < m' ==> init[j].SectorOk?;
        } else {
          assert forall j :: 0 <= j < |init| ==> init[j].SectorOk?;
        }
      }
    }
  }

  /** A decoded record holds the background colour of the header and, for each of its
      sector-count sectors, exactly the sector that entry of the jump table points at,
      well formed for the layout; the record decodes exactly when the header fits,
      the count is non-zero and every sector decodes. */
  lemma DecodedExactly(data: seq<u8>, base: nat, s1: bool)
    ensures Decode(data, base, s1).Decoded? <==>
              base + SKY_HEADER_SIZE <= |data| && U32At(data, base + 8) != 0 &&
              forall j :: 0 <= j < U32At(data, base + 8) ==> SectorAt(data, base, j, s1).SectorOk?
    ensures Decode(data, base, s1).Decoded? ==>
              var d := Decode(data, base, s1);
              && d.background == LeWord32(data[base + 4 .. base + 8])
              && |d.sectors| == U32At(data, base + 8)
              && forall j :: 0 <= j < |d.sectors| ==>
                   SectorAt(data, base, j, s1) == SectorOk(d.sectors[j]) && WellFormed(d.sectors[j], s1)
  {
    if base + SKY_HEADER_SIZE <= |data| {
      var n := U32At(data, base + 8);
      var rs := SectorResults(data, base, s1, n);
      AllReadExactly(rs);
      if Decode(data, base, s1).Decoded? {
        var d := Decode(data, base, s1);
        forall j | 0 <= j < |d.sectors|
          ensures SectorAt(data, base, j, s1) == SectorOk(d.sectors[j]) && WellFormed(d.sectors[j], s1)
        {
          assert rs[j] == SectorAt(data, base, j, s1);
        }
      }
    }
  }

  /** A record aborts exactly when it is of the earlier title, its header fits, and
      some sector has a bad sentinel while every sector before it decodes. */
  lemma DecodeAbortsExactly(data: seq<u8>, base: nat, s1: bool)
    ensures Decode(data, base, s1) == DecodeAborted <==>
              && s1 && base + SKY_HEADER_SIZE <= |data|
              && exists m :: 0 <= m < U32At(data, base + 8) && BadSentinelAt(data, base, m)
                             && forall j :: 0 <= j < m ==> SectorAt(data, base, j, s1).SectorOk?
  {
    if base + SKY_HEADER_SIZE <= |data| {
      var n := U32At(data, base + 8);
      var rs := SectorResults(data, base, s1, n);
      AbortedExactly(rs);
      if Decode(data, base, s1) == DecodeAborted {
        var m :| 0 <= m < |rs| && rs[m].SectorAborted? && forall j :: 0 <= j < m ==> rs[j].SectorOk?;
        assert rs[m] == SectorAt(data, base, m, s1);
        forall j | 0 <= j < m
          ensures SectorAt(data, base, j, s1).SectorOk?
        {
          assert rs[j] == SectorAt(data, base, j, s1);
        }
      }
      if s1 && exists m :: 0 <= m < n && BadSentinelAt(data, base, m)
                           && forall j :: 0 <= j < m ==> SectorAt(data, base, j, s1).SectorOk? {
        var m :| 0 <= m < n && BadSentinelAt(data, base, m)
                 && forall j :: 0 <= j < m ==> SectorAt(data, base, j, s1).SectorOk?;
        assert rs[m] == SectorAt(data, base, m, s1);
        forall j | 0 <= j < m
          ensures rs[j].SectorOk?
        {
          assert rs[j] == SectorAt(data, base, j, s1);
        }
        assert Walk(rs) == StoppedAborted;
      }
    }
  }

  // ---------------------------------------------------------------- the count block

  /** What the header reads of the earlier-title sector at `s` leave in the first
      element of the count block when it held `prior`: a count whose read succeeds
      overwrites its field, and a read that fails writes nothing. */
  function CountsLeftS1(data: seq<u8>, s: nat, prior: SecVCPCountS1): SecVCPCountS1 {
    SecVCPCountS1(
      if s + 14 <= |data| then U16At(data, s + 12) else prior.vertex,
      if s + 20 <= |data| then U16At(data, s + 18) else prior.color,
      if s + 18 <= |data| then U16At(data, s + 16) else prior.polygon)
  }

  /** The same for the later titles' header reads. */
  function CountsLeftS23(data: seq<u8>, s: nat, prior: SecVCPCountS23): SecVCPCountS23 {
    SecVCPCountS23(
      if s + 13 <= |data| then data[s + 12] else prior.vertex,
      if s + 14 <= |data| then data[s + 13] else prior.color,
      if s + 18 <= |data| then U16At(data, s + 16) else prior.polygon,
      if s + 20 <= |data| then U16At(data, s + 18) else prior.polygonMisc)
  }

  /** What reading sector i leaves in the first element of the count block when it
      held `prior`. The element has the layout's type (a prior of the other layout
      reads as zeros); a jump-table entry that cannot be read writes nothing. */
  function SectorCountsLeft(data: seq<u8>, base: nat, i: nat, s1: bool, prior: SectorCounts): SectorCounts {
    if JumpEntry(base, i) + 4 > |data| then prior
    else if s1 then
      CountsS1(CountsLeftS1(data, SectorStart(data, base, i), if prior.CountsS1? then prior.s1 else ZeroCountsS1.s1))
    else
      CountsS23(CountsLeftS23(data, SectorStart(data, base, i), if prior.CountsS23? then prior.s23 else ZeroCountsS23.s23))
  }

  /** A count block of n elements, zeroed by its allocation, whose first element
      holds `first`. */
  function SlotBlock(n: nat, s1: bool, first: SectorCounts): (b: seq<SectorCounts>)
    requires n != 0
    ensures |b| == n && b[0] == first
    ensures forall k :: 0 < k < n ==> b[k] == ZeroCounts(s1)
  {
    seq(n, k requires 0 <= k < n => if k == 0 then first else ZeroCounts(s1))
  }

  /** Writing the first element of such a block gives the block holding the new value. */
  lemma SlotBlockSet(n: nat, s1: bool, first: SectorCounts, next: SectorCounts)
    requires n != 0
    ensures SlotBlock(n, s1, first)[0 := next] == SlotBlock(n, s1, next)
  {
  }

  /** The first element of the count block once the loop has gone on from sector j
      of the listed outcomes rs with the element holding `slot`: the reads of each
      sector leave what they reach there, and the loop stops after the first sector
      that does not decode. */
  function SlotFrom(rs: seq<SectorResult>, data: seq<u8>, base: nat, s1: bool, j: nat, slot: SectorCounts): SectorCounts
    decreases |rs| - j
  {
    if j >= |rs| then slot
    else
      var next := SectorCountsLeft(data, base, j, s1, slot);
      if rs[j].SectorOk? then SlotFrom(rs, data, base, s1, j + 1, next) else next
  }

  /** One sector of SlotFrom: after a sector that decodes the walk goes on from what
      its reads left, and after one that does not, that is what remains. */
  lemma SlotStep(rs: seq<SectorResult>, data: seq<u8>, base: nat, s1: bool, j: nat, slot: SectorCounts)
    requires j < |rs|
    ensures var next := SectorCountsLeft(data, base, j, s1, slot);
            SlotFrom(rs, data, base, s1, j, slot) == if rs[j].SectorOk? then SlotFrom(rs, data, base, s1, j + 1, next) else next
  {
  }

  /** The count block that decoding the record at `base` leaves when the structure
      held the block `prior`: one zeroed element per sector is allocated once a
      non-zero count is read, and only its first element is ever written. */
  function CountBlockLeft(data: seq<u8>, base: nat, s1: bool, prior: seq<SectorCounts>): seq<SectorCounts> {
    if base + SKY_HEADER_SIZE > |data| || U32At(data, base + 8) == 0 then prior
    else
      var n := U32At(data, base + 8);
      SlotBlock(n, s1, SlotFrom(SectorResults(data, base, s1, n), data, base, s1, 0, ZeroCounts(s1)))
  }

  /** With a header that fits and a non-zero count, the count block is the one the
      walk over any listing of the sectors leaves. */
  lemma BlockListed(data: seq<u8>, base: nat, s1: bool, all: seq<SectorResult>, prior: seq<SectorCounts>)
    requires base + SKY_HEADER_SIZE <= |data| && |all| == U32At(data, base + 8) != 0
    requires Lists(all, data, base, s1)
    ensures CountBlockLeft(data, base, s1, prior) == SlotBlock(|all|, s1, SlotFrom(all, data, base, s1, 0, ZeroCounts(s1)))
  {
    ListedResults(data, base, s1, all);
  }

  /** Once every remaining sector decodes, the first element ends up holding the last
      sector's counts. */
  lemma {:induction false} SlotFromAllRead(rs: seq<SectorResult>, data: seq<u8>, base: nat, s1: bool, j: nat, slot: SectorCounts)
    requires Lists(rs, data, base, s1)
    requires forall k :: j <= k < |rs| ==> rs[k].SectorOk?
    ensures SlotFrom(rs, data, base, s1, j, slot) == if j < |rs| then rs[|rs| - 1].sector.counts else slot
    decreases |rs| - j
  {
    if j < |rs| {
      assert rs[j] == SectorAt(data, base, j, s1);
      DecodedSectorLeavesCounts(data, base, j, s1, slot);
      SlotFromAllRead(rs, data, base, s1, j + 1, SectorCountsLeft(data, base, j, s1, slot));
    }
  }

  /** After a record decodes, the first element of its count block holds the last
      sector's counts and the others are zero. */
  lemma DecodedBlock(data: seq<u8>, base: nat, s1: bool, prior: seq<SectorCounts>)
    requires Decode(data, base, s1).Decoded?
    ensures var d := Decode(data, base, s1);
            CountBlockLeft(data, base, s1, prior) == SlotBlock(|d.sectors|, s1, d.sectors[|d.sectors| - 1].counts)
  {
    var n := U32At(data, base + 8);
    var rs := SectorResults(data, base, s1, n);
    assert Walk(rs) == AllRead(Decode(data, base, s1).sectors);
    BlockAllRead(data, base, s1, rs, prior);
  }

  lemma BlockAllRead(data: seq<u8>, base: nat, s1: bool, rs: seq<SectorResult>, prior: seq<SectorCounts>)
    requires base + SKY_HEADER_SIZE <= |data| && rs == SectorResults(data, base, s1, U32At(data, base + 8))
    requires rs != [] && Walk(rs).AllRead?
    ensures CountBlockLeft(data, base, s1, prior) == SlotBlock(|rs|, s1, Walk(rs).sectors[|rs| - 1].counts)
  {
    assert Lists(rs, data, base, s1);
    AllReadExactly(rs);
    SlotFromAllRead(rs, data, base, s1, 0, ZeroCounts(s1));
  }

  /** A sector that decodes leaves exactly its own counts in the first element of
      the count block, whatever that element held before. */
  lemma DecodedSectorLeavesCounts(data: seq<u8>, base: nat, i: nat, s1: bool, prior: SectorCounts)
    requires SectorAt(data, base, i, s1).SectorOk?
    ensures SectorCountsLeft(data, base, i, s1, prior) == SectorAt(data, base, i, s1).sector.counts
  {
    var s := SectorStart(data, base, i);
    if s1 {
      assert HeaderS1At(data, s).HeaderOk?;
    } else {
      assert HeaderS23At(data, s).HeaderOk?;
    }
  }

  /** A sector whose reads stop before its first count leaves the first element of
      the count block as it was. */
  lemma UnreadCountsStay(data: seq<u8>, base: nat, i: nat, s1: bool, prior: SectorCounts)
    requires JumpEntry(base, i) + 4 > |data| || SectorStart(data, base, i) + (if s1 then 14 else 13) > |data|
    requires prior.CountsS1? == s1
    ensures SectorCountsLeft(data, base, i, s1, prior) == prior
  {
  }

  // ---------------------------------------------------------------- totals

  /** One sector's counts added to the running totals, each `uint32_t` total wrapping
      around; the earlier title has no misc size. */
  function AddCounts(t: VCPCount, c: SectorCounts): (r: VCPCount)
    ensures forall f :: TotalOf(r, f) == (TotalOf(t, f) + CountOf(c, f)) % 0x1_0000_0000
  {
    match c
    case CountsS1(s) =>
      VCPCount(AddU32(t.vertex, s.vertex), AddU32(t.color, s.color), AddU32(t.polygon, s.polygon), t.polygonMisc)
    case CountsS23(s) =>
      VCPCount(AddU32(t.vertex, s.vertex), AddU32(t.color, s.color), AddU32(t.polygon, s.polygon),
               AddU32(t.polygonMisc, s.polygonMisc))
  }

  /** The totals after adding the sectors in order to zeroed totals: each running
      total is the sum of that count over all sectors, modulo 2^32. */
  function Totals(ss: seq<Sector>): (t: VCPCount)
    ensures forall f :: TotalOf(t, f) == SumOf(ss, f) % 0x1_0000_0000
    decreases |ss|
  {
    if ss == [] then ZeroVCP
    else
      var t := Totals(ss[..|ss| - 1]);
      SumsStep(t, ss);
      AddCounts(t, ss[|ss| - 1].counts)
  }

  /** Adding the last sector's counts to totals that are the sums over the sectors
      before it gives the sums over all of them. */
  lemma SumsStep(t: VCPCount, ss: seq<Sector>)
    requires ss != []
    requires forall f :: TotalOf(t, f) == SumOf(ss[..|ss| - 1], f) % 0x1_0000_0000
    ensures forall f :: TotalOf(AddCounts(t, ss[|ss| - 1].counts), f) == SumOf(ss, f) % 0x1_0000_0000
  {
    forall f
      ensures TotalOf(AddCounts(t, ss[|ss| - 1].counts), f) == SumOf(ss, f) % 0x1_0000_0000
    {
      SumStepAt(t, ss, f);
    }
  }

  /** SumsStep for one of the four totals. */
  lemma SumStepAt(t: VCPCount, ss: seq<Sector>, f: CountField)
    requires ss != []
    requires TotalOf(t, f) == SumOf(ss[..|ss| - 1], f) % 0x1_0000_0000
    ensures TotalOf(AddCounts(t, ss[|ss| - 1].counts), f) == SumOf(ss, f) % 0x1_0000_0000
  {
    var sum, count := SumOf(ss[..|ss| - 1], f), CountOf(ss[|ss| - 1].counts, f);
    assert SumOf(ss, f) == sum + count;
    ModAdd(TotalOf(AddCounts(t, ss[|ss| - 1].counts), f), TotalOf(t, f), sum, count);
  }

  datatype CountField = VertexCount | ColorCount | PolygonCount | PolygonMiscCount

  function CountOf(c: SectorCounts, f: CountField): nat {
    match (c, f)
    case (CountsS1(s), VertexCount) => s.vertex
    case (CountsS1(s), ColorCount) => s.color
    case (CountsS1(s), PolygonCount) => s.polygon
    case (CountsS1(s), PolygonMiscCount) => 0
    case (CountsS23(s), VertexCount) => s.vertex
    case (CountsS23(s), ColorCount) => s.color
    case (CountsS23(s), PolygonCount) => s.polygon
    case (CountsS23(s), PolygonMiscCount) => s.polygonMisc
  }

  function TotalOf(t: VCPCount, f: CountField): u32 {
    match f
    case VertexCount => t.vertex
    case ColorCount => t.color
    case PolygonCount => t.polygon
    case PolygonMiscCount => t.polygonMisc
  }

  /** The plain sum of one count over the sectors. */
  function SumOf(ss: seq<Sector>, f: CountField): nat
    decreases |ss|
  {
    if ss == [] then 0 else SumOf(ss[..|ss| - 1], f) + CountOf(ss[|ss| - 1].counts, f)
  }

  /** A running total kept modulo 2^32 stays the sum modulo 2^32 after one more add. */
  lemma ModAdd(next: int, total: int, sum: int, count: int)
    requires total == sum % 0x1_0000_0000 && next == (total + count) % 0x1_0000_0000
    ensures next == (sum + count) % 0x1_0000_0000
  {
  }

  /** Earlier-title sectors never add to the misc total. */
  lemma {:induction false} S1SumsHaveNoMisc(ss: seq<Sector>)
    requires forall k :: 0 <= k < |ss| ==> ss[k].counts.CountsS1?
    ensures SumOf(ss, PolygonMiscCount) == 0
    decreases |ss|
  {
    if ss != [] {
      S1SumsHaveNoMisc(ss[..|ss| - 1]);
    }
  }
}
