# Spyro sky record decoder

This project models the sky decoder of the Spyro WAD tool. `sky_read` reads the
skybox block of a Spyro 1, 2 or 3 level file into a `SpyroSky` structure, and
`sky_free` releases that structure. The model also covers the packed record
layouts the decoder relies on: vertex, colour and index words, the polygon layouts
of both families, sector counts, coordinates and the `game_ver` flags.

A sky record starts at the cursor (`base`):
- a 4-byte size, which is skipped;
- the background colour;
- the sector count n;
- a jump table of n 4-byte offsets relative to `base`.

Each offset points at a sector payload: a header whose shape depends on the game
family, then the vertex, colour and polygon arrays (and, for the later titles, the
misc-polygon bytes) that the header's counts size. The earlier title checks a
0xFFFFFFFF sentinel, the last word of its 24-byte header at +20, with `assert`, which ends the process when it
fails. Every other failure leaves through one cleanup path that releases the
structure.

The project has five modules:

- `Bytes` (bytes.dfy): little-endian numbers and words over byte sequences.
- `SkyLayout` (layout.dfy): spyro.h. It holds the `game_ver` bits, `VCPCount`,
  `SecVCPCountS1` and `SecVCPCountS23`, and `SpyroSkyCoord` with its signed 16-bit
  fields. Each bit-field union becomes an unpack function and a pack function,
  with lemmas that prove the fields fit their widths and that unpacking then
  packing gives back the word.
- `Streams` (stream.dfy): the `FILE *` as a class that holds the file's bytes and
  a cursor, with `ftell`, `fseek` and `fread`.
- `SkyFormat` (format.dfy): a pure reference decoder, `Decode`, that addresses
  every field by its offset from `base`. Lemmas about it describe exactly when a
  record decodes, when it aborts and what the running totals are.
- `Sky` (sky.dfy): the class `SpyroSky`, `SkyFree` and `SkyRead`, written as
  imperative methods that move the cursor and update the structure's fields in
  place. The methods are proved against `Decode`.

## Model

| member | source | states |
|---|---|---|
| `Bytes.U16At` | spyro.c:111-112 | a 2-byte field read on a little-endian host is the number of its two bytes, low byte first |
| `Bytes.U32At` | spyro.c:74-75 | a 4-byte field is the little-endian number of bytes p..p+4, built from its two halves |
| `Bytes.U64At` | spyro.c:110 | the 8-byte `unknown` field is the little-endian number of bytes p..p+8 |
| `Bytes.U16Bytes` | spyro.h:98 | encoding a half-word gives two bytes that decode back to it |
| `Bytes.U32Bytes` | spyro.c:75 | encoding a 32-bit number gives four bytes that decode back to it |
| `Bytes.U16BytesOfU16` | spyro.h:98 | every two bytes are the encoding of the half-word they hold |
| `Bytes.U32BytesOfU32` | spyro.c:75 | every four bytes are the encoding of the number they hold, so a 4-byte read loses nothing |
| `Bytes.LeWord32` | spyro.c:74 | byte k of a 32-bit word read from the file is bits 8k to 8k+7 |
| `Bytes.LeWord64` | spyro.h:74-80 | the first four bytes of an 8-byte word are its low half |
| `SkyLayout.GameVersionBits` | spyro.h:4-8 | S1_FULL, S2_FULL and S3_FULL are the single bits 1, 2 and 4, pairwise disjoint |
| `SkyLayout.GameTypeBranches` | spyro.c:85 | the earlier title's layout is chosen whenever its bit is set, whatever else is set; a known game type either selects that layout or has the misc table |
| `SkyLayout.IsS1` | spyro.c:85 | the Spyro 1 game type selects the earlier layout; Spyro 2, Spyro 3 and the two together do not |
| `SkyLayout.HasMiscPolygons` | spyro.c:99 | the Spyro 2 and Spyro 3 game types, alone or together, get the misc table; the Spyro 1 game type does not |
| `SkyLayout.AddU32` | spyro.c:144-146 | adding a count to a `uint32_t` total wraps around modulo 2^32: a count below 2^32 gives the plain sum while that stays below 2^32, and the sum minus 2^32 once it does not |
| `SkyLayout.ToInt16` | spyro.h:68-72 | a half-word read into an `int16_t` is the same value or that value minus 2^16, and it is negative exactly when the top bit is set |
| `SkyLayout.FromInt16` | spyro.h:68-72 | every signed 16-bit value has a bit pattern that reads back as that value |
| `SkyLayout.FromInt16OfToInt16` | spyro.h:68-72 | every bit pattern is the pattern of the signed value it denotes |
| `SkyLayout.VertexUnpack` | spyro.h:26-33 | z, y and x of a vertex word fit 10, 11 and 11 bits and repack to the word |
| `SkyLayout.VertexPackUnpack` | spyro.h:26-33 | fields within their widths survive packing then unpacking |
| `SkyLayout.ColorUnpack` | spyro.h:35-43 | the four channels of a colour word repack to the word |
| `SkyLayout.ColorPackUnpack` | spyro.h:35-43 | four channels survive packing then unpacking |
| `SkyLayout.ColorOfBytes` | spyro.h:35-43 | a colour read from four file bytes has r, g, b and i equal to those bytes in order |
| `SkyLayout.IndexUnpack` | spyro.h:45-53 | the two unused bits and the three 10-bit indices of an index word fit their widths and repack to the word |
| `SkyLayout.IndexPackUnpack` | spyro.h:45-53 | an unused part and three indices within their widths survive packing then unpacking |
| `SkyLayout.PolygonS1Unpack` | spyro.h:74-80 | the vertex and colour index words of an earlier-title polygon repack to the 64-bit word |
| `SkyLayout.PolygonS1PackUnpack` | spyro.h:74-80 | two index words survive packing then unpacking |
| `SkyLayout.PolygonS1OfBytes` | spyro.h:74-80 | an 8-byte polygon holds its vertex indices in its first four bytes and its colour indices in its last four |
| `SkyLayout.PolygonS23Unpack` | spyro.h:82-91 | misc_count fits 3 bits, the colour indices 7 bits each and first_vertex 8 bits, and together they repack to the word |
| `SkyLayout.PolygonS23PackUnpack` | spyro.h:82-91 | fields within those widths survive packing then unpacking |
| `SkyLayout.MiscBitsUnpack` | spyro.h:97-104 | vertex, color and vertex_middle of the misc half-word fit 8, 7 and 1 bits and repack to it |
| `SkyLayout.MiscBitsPackUnpack` | spyro.h:97-104 | misc bit-fields within their widths survive packing then unpacking |
| `SkyLayout.MiscPack` | spyro.h:94-105 | a misc record is four bytes |
| `SkyLayout.MiscUnpack` | spyro.h:94-105 | bytes 0 and 1 are second_vertex and third_vertex, bytes 2-3 the misc half-word; packing the fields again gives the four bytes |
| `SkyLayout.MiscPackUnpack` | spyro.h:94-105 | the fields of a misc record survive packing then unpacking |
| `SkyLayout.MiscBitsOf` | spyro.h:97-104 | the bit-fields of a record's half-word fit their widths and repack to that half-word |
| `Streams.Stream.constructor` | spyro.c:50 | a stream over the given bytes with the cursor at the given position |
| `Streams.Stream.Tell` | spyro.c:67 | `ftell` returns the cursor |
| `Streams.Stream.Seek` | spyro.c:109 | an absolute `fseek` moves the cursor to the target |
| `Streams.Stream.Skip` | spyro.c:72 | a relative `fseek` advances the cursor by n |
| `Streams.Stream.Read` | spyro.c:140-142 | `fread` of one n-byte item succeeds exactly when n > 0 and n bytes remain; it then yields them and advances the cursor by n, and otherwise consumes what is left |
| `Streams.Stream.ReadU8` | spyro.c:159-160 | a one-byte read yields the byte at the cursor |
| `Streams.Stream.ReadU16` | spyro.c:111-112 | a two-byte read yields the little-endian half-word at the cursor |
| `Streams.Stream.ReadU32` | spyro.c:108 | a four-byte read yields the little-endian number at the cursor |
| `Streams.Stream.ReadWord32` | spyro.c:74 | a four-byte read into a bit-field union yields the word of those bytes |
| `Streams.Stream.ReadU64` | spyro.c:110 | an eight-byte read yields the little-endian number at the cursor |
| `SkyFormat.HeaderS1At` | spyro.c:110-130 | the 24-byte earlier-title header is short exactly when it does not fit and rejected exactly when the word at +20 is not 0xFFFFFFFF; a header read whole carries the earlier title's counts |
| `SkyFormat.HeaderS23At` | spyro.c:110-163 | the 20-byte later-title header is short exactly when it does not fit, is never rejected, and carries the later titles' counts |
| `SkyFormat.BodyS1` | spyro.c:132-142 | earlier-title arrays decode only with non-zero counts, into exactly 4·vertex, 4·color and 8·polygon bytes, keeping the header's counts, and never abort |
| `SkyFormat.BodyS23` | spyro.c:163-187 | later-title buffers decode only with non-zero counts and sizes, into 4·vertex and 4·color bytes and exactly the polygon and misc byte sizes, and never abort |
| `SkyFormat.PayloadS1` | spyro.c:110-142 | an earlier-title payload aborts exactly when its header fits but the sentinel does not match; a decoded one is well formed |
| `SkyFormat.PayloadS23` | spyro.c:110-187 | a later-title payload never aborts, and a decoded one is well formed |
| `SkyFormat.SectorAt` | spyro.c:105-109 | a sector that decodes through its jump entry is well formed for its layout, and a sector aborts exactly when the layout is the earlier one, its entry and 24-byte header fit, and the word at +20 is not 0xFFFFFFFF |
| `SkyFormat.Walk` | spyro.c:104-109 | a walk that reads every sector yields one sector per listed outcome |
| `SkyFormat.Decode` | spyro.c:67-195 | a decoded record has a header that fits and exactly as many sectors as its non-zero count; the later titles never abort |
| `SkyFormat.ListedResults` | spyro.c:104-109 | any listing of the sectors' outcomes is the list of the outcomes of the first sectors, in jump-table order |
| `SkyFormat.DecodeListed` | spyro.c:104-109 | a record whose header fits and whose count is non-zero decodes as the walk over any listing of its sectors' separate outcomes |
| `SkyFormat.WalkSnoc` | spyro.c:104 | one more sector extends the walk by that sector, and a walk that has stopped stays stopped |
| `SkyFormat.StoppedStays` | spyro.c:104-109 | once a sector fails or aborts, later sectors do not change the outcome |
| `SkyFormat.AllReadExactly` | spyro.c:104-195 | the walk reads every sector exactly when each one decodes, and then yields exactly those sectors in order |
| `SkyFormat.AbortedExactly` | spyro.c:130 | the walk aborts exactly when some sector aborts and every sector before it decodes |
| `SkyFormat.DecodedExactly` | spyro.c:67-195 | a record decodes exactly when its header fits, its count is non-zero and every jump-table sector decodes; then the background is the word at base+4, there are count sectors, and sector j is the well-formed payload of entry j |
| `SkyFormat.DecodeAbortsExactly` | spyro.c:104-130 | a record aborts exactly when it uses the earlier layout, its header fits, and some sector m below the count has a fitting header with a bad sentinel while sectors 0 to m-1 all decode |
| `SkyFormat.S1SumsHaveNoMisc` | spyro.c:144-146 | earlier-title sectors add nothing to the misc total |
| `SkyFormat.AddCounts` | spyro.c:189-192 | adding a sector's counts gives, for each of the four totals, the old total plus that count modulo 2^32; an earlier-title sector counts 0 misc bytes |
| `SkyFormat.Totals` | spyro.c:144-146 | each running total after the sectors is the plain sum of that count over them, modulo 2^32 |
| `SkyFormat.SumsStep` | spyro.c:189-192 | adding the last sector to totals that are the sums over the earlier sectors gives the sums over all of them, modulo 2^32 |
| `SkyFormat.SlotBlock` | spyro.c:86-88 | a count block of n elements holds the given first element and the family's zeros everywhere else |
| `SkyFormat.SlotBlockSet` | spyro.c:122 | writing the first element of such a block gives the block with the new first element |
| `SkyFormat.DecodedSectorLeavesCounts` | spyro.c:122-126 | a sector that decodes leaves exactly its own counts in the first count element, whatever that element held before |
| `SkyFormat.UnreadCountsStay` | spyro.c:105-112 | a sector whose jump entry does not fit, or whose data ends before its first count is complete (+14 for the earlier title, +13 for the later ones), leaves the first count element as it was |
| `SkyFormat.BlockListed` | spyro.c:84-163 | with a header that fits and a non-zero count, the count block left by decoding is the one the walk over any listing of the sectors leaves |
| `SkyFormat.SlotFromAllRead` | spyro.c:122-163 | once every remaining sector decodes, the first count element ends up holding the last sector's counts |
| `SkyFormat.DecodedBlock` | spyro.c:84-163 | after a record decodes, its count block has one element per sector: the last sector's counts first and zeros elsewhere |
| `Sky.SpyroSky.constructor` | spyro.h:108-123 | a zero-initialised structure: valid, with no sectors, no totals, no tables and a zero background |
| `Sky.EmptySlots` | spyro.c:17-28 | every vertex, colour and polygon slot is emptied, and every misc slot when that table exists; nothing else changes |
| `Sky.SkyFree` | spyro.c:14-48 | a null structure or one without sectors is left exactly as it is, so a second release changes nothing; otherwise the structure ends with no sectors, zero totals, zero background and no tables, while the game type and the count block are kept |
| `Sky.ReadHeaderS1` | spyro.c:110-130 | the field-by-field reads (unknown, y, z, vertex count, x, polygon count, colour count, sentinel) yield the header `HeaderS1At` finds at fixed offsets from the cursor and on success leave the cursor 24 bytes further; each count that is read is written into the first count element as it is read (`CountsLeftS1`) |
| `Sky.ReadHeaderS23` | spyro.c:110-163 | the field-by-field reads (unknown, y, z, vertex and colour counts, x, polygon size, misc size) yield the header `HeaderS23At` finds at fixed offsets from the cursor and on success leave the cursor 20 bytes further; each count that is read is written into the first count element as it is read (`CountsLeftS23`) |
| `Sky.ReadBodyS1` | spyro.c:132-142 | the allocations and reads of the three arrays yield `BodyS1` at the cursor |
| `Sky.ReadBodyS23` | spyro.c:163-187 | the allocations and reads of the four buffers yield `BodyS23` at the cursor |
| `Sky.ReadPayloadS1` | spyro.c:110-142 | reading an earlier-title sector from the cursor yields `PayloadS1`, and the first count element holds what the header reads reached |
| `Sky.ReadPayloadS23` | spyro.c:110-187 | reading a later-title sector from the cursor yields `PayloadS23`, and the first count element holds what the header reads reached |
| `Sky.ReadSector` | spyro.c:105-109 | sector i, read through its jump entry at base+12+4i and its offset from base, yields the outcome listed for it; a sector that is read is well formed and leaves its own counts in the first count element, and any sector leaves there what `SectorCountsLeft` says |
| `Sky.AllocateTables` | spyro.c:79-102 | every per-sector table gets one zeroed slot per sector, the misc table exactly when it is asked for (sky_read asks whenever the Spyro 2 or Spyro 3 bit is set, even together with the Spyro 1 bit), and the count block holds zeros of the family's type |
| `Sky.TablesSnoc` | spyro.c:110-187 | storing a sector in slot i of tables that hold the first i sectors gives tables that hold i+1 |
| `Sky.CountsSnoc` | spyro.c:122-126 | every sector's counts go into the first element of the count block |
| `Sky.StoreSector` | spyro.c:110-192 | the sector's fields land in slot i of every table, its counts in the first count element, and its counts are added to the totals |
| `Sky.ReadAndStore` | spyro.c:104-194 | one loop pass yields the listed outcome of sector i; a sector that is read is stored and the cursor moves to entry i+1; a sector that fails or aborts changes no table and no total; either way the first count element holds what the sector's reads left there |
| `Sky.ReadSectors` | spyro.c:104-195 | the loop's outcome is the walk over the listed sectors; when all are read, the tables hold them, the totals are their sums and the cursor is at base+12+4n; in every outcome the count block is zeros except a first element that holds what the walked sectors' reads left there |
| `Sky.SkyRead` | spyro.c:50-204 | without a stream, structure or game type it reads nothing and releases the structure; otherwise it aborts exactly when `Decode` aborts and succeeds exactly when `Decode` decodes. On success the structure holds the decoded sectors, background and totals, and the cursor rests after the jump table. On failure the structure is released and the game type is kept. Whenever it reads, the count block afterwards is `CountBlockLeft` of the record and the block it held before, since the release never frees it; when nothing is read the count block is kept as it was |
| `Sky.ReadAtCursor` | spyro.c:67-204 | the record at the cursor is read after a release, and a failed read is released again; its outcome is the decoding of that record, and the count block is the one `CountBlockLeft` gives |
| `Sky.ReadDecoded` | spyro.c:72-197 | the outcome of the header and sector reads is the decoding of the record, and the count block is the one `CountBlockLeft` gives |
| `Sky.ExitFollowsDecode` | spyro.c:195-204 | a return value stated through the walk is the return value `Decode` predicts: abort, success or failure |
| `Sky.ReadRecord` | spyro.c:72-197 | a header that does not fit or a zero count fails and leaves the count block alone; otherwise the outcome is the walk over the sectors and the count block is the one that walk leaves. On failure the structure is still valid and holds the background the release will leave or clear |
| `Sky.ReadSkyHeader` | spyro.c:72-75 | after the 4-byte skip, the background is the word at base+4 and the count is the number at base+8, each read only when it fits |
| `Sky.RecordGameType` | spyro.c:197 | the game type is stored only at the end of a successful read, the structure then holds the sectors read, and the count block is left as it is |
| `Sky.ReadTables` | spyro.c:79-197 | the allocations and the loop for a non-zero count yield the walk over the sectors, a count block that the walk left and, on success, a structure that holds them |

## Left out

- Tables: `SpyroSky` holds each table as a sequence field that the methods reassign, not as separately allocated arrays. An empty sequence stands for NULL, and a live table has one slot per sector. Aliasing between tables and in-place writes through shared pointers are therefore not modelled.
- Per-sector buffers: each buffer is the byte sequence that was read into it. The allocated capacity is not modelled; for the later titles the polygon and misc buffers are allocated at four times the bytes read into them (spyro.c:169, spyro.c:175); the vertex and colour buffers hold exactly the bytes read.
- `calloc` failure (out of memory) is not modelled. `calloc` of zero elements is modelled as returning NULL, which C allows. So a record with sector count 0 fails, and so does a sector with a zero count, as the zero-byte `fread` would make it fail anyway.
- I/O errors: `ftell` never fails and `fseek` never fails (its targets are never negative here). `fread` fails only on a short or zero-sized read.
- A failed `fread` is modelled as writing nothing into its target, so a count whose read fails keeps the value it had; what a partial read leaves is not modelled. Neither are the cursor after a failed `sky_read` and the structure's contents after an abort. The statement that a failure leaves a cleared structure rests on this choice: with 1 to 3 bytes left at base+8, a C library that copies the bytes it did get could leave a non-zero `sector_count` while the tables are still NULL (spyro.c:75), and the cleanup's `sky_free` would then index the NULL tables (spyro.c:22).
- The `sector_vcp` count block is never released by `sky_free`; that leak is kept as a field the release leaves untouched, and the counts a failed read left in it are stated (`CountBlockLeft`).
- Game type values that are non-zero but set none of the three title bits are excluded by a precondition. They would write through a null misc table.
- The variable-width later-title polygon records (walking `misc_count`) are not interpreted; the decoder stores raw bytes, and so does the model.
- Portal structures, placeholder typedefs and commented-out diagnostics are not part of this model.
- `assert` is modelled as always enabled: a bad sentinel is the `Aborted` outcome, and building with NDEBUG is not modelled.
- ReadAndStore: the source writes a sector's `unknown` and coordinate fields and allocates its buffers in slot i before a later read of that sector can fail. The model stores them only once the whole sector is read (`StoreSector`), so its contract says a failing sector changes no table. The release that follows every failure frees all of those tables, so the difference cannot be seen afterwards. The counts are different: they go into the count block, which the release keeps, and the model writes them as they are read.
- `BodyS23` tests a zero misc size before the buffer reads, while the source finds it at the misc allocation after the polygon bytes are read (spyro.c:175-176). Both paths end in the same failure; `ReadBodyS23` follows the source's order.
- A zero misc size fails, because the misc buffer is allocated with that size. A description of the format would give an empty misc array instead; the model follows the code.
- SkyRead: after a failure the background colour is cleared only when a non-zero sector count had been read first. `sky_free` returns early while the count is still 0 (spyro.c:16), so a failure at the count read or with count 0 leaves the background just read; the contract states exactly that (`BackgroundLeftOnFailure`) rather than a cleared background.
