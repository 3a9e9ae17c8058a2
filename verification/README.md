# Read side of the HERE data SDK, modelled in Dafny

This project models the core of the read client of the HERE data SDK
(`olp-cpp-sdk-dataservice-read`):

- the binary **quadtree index** (`QuadTreeIndex`): its header, sub-entry and
  parent-entry arrays, tag records, `CreateBlob` and `Find`;
- the **cache model** of a versioned layer:
  - the keys it stores partitions, data blobs and indexes under;
  - the ancestor walk that finds the index covering a tile;
  - `RemoveFromCache` for partitions and tiles;
  - `Protect` and `Release` with their pin table, and entry expiry;
- the volatile client's **tile prefetch** pipeline:
  - request validation and level normalisation;
  - slicing into index roots and the two filters;
  - the download decision and the per-tile outcome;
  - cancellation;
- the versioned client's **partition prefetch**: batching, metadata queries,
  downloads and the aggregated status;
- the **API lookup** policy of `ApiClientLookup`: the lookup URL table, which
  fetch options lock, read or write the cache, and the first-match selection.

Modules, one per file:

| file | module | models |
|---|---|---|
| `wrappers.dfy` | `Wrappers`, `ClientErrors` | `Option`, `Result`, and the client's `ApiError`/`ErrorCode` |
| `strings.dfy` | `Strings` | decimal rendering of numbers, as used in keys |
| `bytes.dfy` | `Bytes` | bytes, field widths, little-endian fields |
| `sorting.dfy` | `Sorting` | the sort `CreateBlob` applies to its entry lists |
| `tile_key.dfy` | `TileKeys` | the tile key the read side uses |
| `quad_layout.dfy` | `QuadLayout` | the index buffer layout and tag records |
| `quad_index.dfy` | `QuadIndex` | `QuadTreeIndex`: validation, `Find`, `CreateBlob` |
| `cache_keys.dfy` | `CacheKeys` | cache key formats |
| `versioned_cache.dfy` | `VersionedCache` | cache state, resolution, removal, protect and release |
| `prefetch_tiles.dfy` | `PrefetchTiles` | the volatile client's `PrefetchTiles` |
| `prefetch_partitions.dfy` | `PrefetchPartitions` | the versioned client's `PrefetchPartitions` |
| `api_lookup.dfy` | `ApiLookup` | `ApiClientLookup::LookupApi` |

**External collaborators are parameters.** The network, the metadata and blob
services, the lookup service and "does this cache removal succeed" are oracle
function parameters. Cancellation is a boolean. Expiry of cache entries is an
explicit `Expire` step.

**Versioned client.** Its implementation file is not part of this model. Its
cache behaviour is stated from `tests/VersionedLayerClientImplTest.cpp`, which
spells out:

- the exact keys;
- the order of the ancestor probes;
- the outcome of every removal step;
- the protect/release scenarios;
- the prefetch aggregation.

**Tile keys.** The `TileKey` source is not part of this model either. Tiles are
`(level, row, column)`:

- `ChangedLevelBy` clamps at level 0;
- the order is the numeric quad key;
- `ToHereTile` is the decimal form of that key.

Only what the modelled files use is stated about tiles. The test uses
`ChangedLevelBy(-depth)` directly as a tile, so the model clamps at level 0.

**Buffer layout.** The index buffer is modelled packed and little-endian:

- a 12-byte header (`u64` root, `u8` depth, `u8` parent count, `u16` sub count);
- 4-byte sub entries;
- 12-byte parent entries;
- then tag records.

## Model

| member | source | states |
|---|---|---|
| Bytes.FieldLimits | olp-cpp-sdk-dataservice-read/src/repositories/QuadTreeIndex.h:79-85 | (constants) the u8, u16, u32 and u64 field ranges are 256^1, 256^2, 256^4 and 256^8 |
| Bytes.DecodeEncodeLE | olp-cpp-sdk-dataservice-read/src/repositories/QuadTreeIndex.h:64-85 | a fixed-width little-endian field reads back the value written into it |
| Bytes.EncodeDecodeLE | olp-cpp-sdk-dataservice-read/src/repositories/QuadTreeIndex.h:64-85 | every byte string of a field's width is the encoding of the value it denotes |
| Sorting.SortBy | olp-cpp-sdk-dataservice-read/src/repositories/QuadTreeIndex.h:113-114 | the entry lists are reordered into a permutation sorted by key |
| Sorting.AdjacentIncreasingIsStrict | olp-cpp-sdk-dataservice-read/src/repositories/QuadTreeIndex.h:67-69 | a sorted list has no repeated key exactly when its neighbours strictly increase |
| TileKeys.ChangedLevelBy | olp-cpp-sdk-dataservice-read/tests/VersionedLayerClientImplTest.cpp:177-179 | moving by a delta lands on level max(0, level+delta); moving up lands on an ancestor |
| TileKeys.ChangedLevelByComposes | olp-cpp-sdk-dataservice-read/tests/VersionedLayerClientImplTest.cpp:206-227 | walking up j and then k levels is walking up j+k levels |
| TileKeys.AncestorTransitive | olp-cpp-sdk-dataservice-read/tests/VersionedLayerClientImplTest.cpp:177-179 | an ancestor of an ancestor is an ancestor |
| TileKeys.AncestorValid | olp-cpp-sdk-dataservice-read/tests/VersionedLayerClientImplTest.cpp:177-179 | the ancestors of a valid tile are valid |
| TileKeys.SubKeyInjective | olp-cpp-sdk-dataservice-read/src/repositories/QuadTreeIndex.h:64-70 | two tiles under one root with the same relative sub quad key are the same tile |
| TileKeys.QuadKeyInjective | olp-cpp-sdk-dataservice-read/src/repositories/QuadTreeIndex.h:73-77 | distinct valid tiles have distinct quad keys, so parent entries are keyed uniquely |
| TileKeys.AncestorQuadKeySmaller | olp-cpp-sdk-dataservice-read/src/repositories/QuadTreeIndex.h:73-77 | an ancestor's quad key is at most its descendant's, so parent keys stay within the root's width |
| TileKeys.FromQuadKeyRoundTrip | olp-cpp-sdk-dataservice-read/src/repositories/QuadTreeIndex.h:79-81 | the root tile key stored in the header as a quad key decodes back to the root |
| TileKeys.LessIsTotalAndLevelMajor | olp-cpp-sdk-dataservice-read/src/repositories/QuadTreeIndex.h:45-47 | the tile order used by `IndexData::operator<` is total on valid tiles and puts coarser levels first |
| TileKeys.ToHereTileInjective | olp-cpp-sdk-dataservice-read/src/VolatileLayerClientImpl.cpp:156-159 | distinct valid tiles have distinct `ToHereTile` partition names |
| QuadLayout.Serialize | olp-cpp-sdk-dataservice-read/src/repositories/QuadTreeIndex.h:116-133 | the buffer length is header + 4 per sub entry + 12 per parent entry + tag data |
| QuadLayout.Parse | olp-cpp-sdk-dataservice-read/src/repositories/QuadTreeIndex.h:116-133 | the regions are read in order from the header's counts; parsing fails exactly when the buffer is too short for them |
| QuadLayout.SerializedRegions | olp-cpp-sdk-dataservice-read/src/repositories/QuadTreeIndex.h:116-133 | sub entries start right after the header, parent entries right after the sub entries, tag data runs to the end |
| QuadLayout.RegionsConcat | olp-cpp-sdk-dataservice-read/src/repositories/QuadTreeIndex.h:116-133 | the four regions, in order, make up the whole buffer |
| QuadLayout.SubEntryAtMatchesRegion | olp-cpp-sdk-dataservice-read/src/repositories/QuadTreeIndex.h:116-119 | reading the i-th sub entry at `SubEntryBegin() + i` gives the i-th entry of the sub region |
| QuadLayout.ParentEntryAtMatchesRegion | olp-cpp-sdk-dataservice-read/src/repositories/QuadTreeIndex.h:121-126 | reading the i-th parent entry at `ParentEntryBegin() + i` gives the i-th entry of the parent region |
| QuadLayout.SubEntryBytesRoundTrip | olp-cpp-sdk-dataservice-read/src/repositories/QuadTreeIndex.h:64-70 | a sub entry (u16 key, u16 offset) reads back as written |
| QuadLayout.ParentEntryBytesRoundTrip | olp-cpp-sdk-dataservice-read/src/repositories/QuadTreeIndex.h:73-77 | a parent entry (u64 key, u32 offset) reads back as written |
| QuadLayout.HeaderRoundTrip | olp-cpp-sdk-dataservice-read/src/repositories/QuadTreeIndex.h:79-85 | a header whose fields fit their widths reads back as written |
| QuadLayout.ParseSerialize | olp-cpp-sdk-dataservice-read/src/repositories/QuadTreeIndex.h:79-85 | parsing a written layout gives the layout back |
| QuadLayout.SerializeParse | olp-cpp-sdk-dataservice-read/src/repositories/QuadTreeIndex.h:116-133 | every buffer whose regions fit is the serialisation of its parsed layout |
| QuadLayout.FindNul | olp-cpp-sdk-dataservice-read/src/repositories/QuadTreeIndex.h:99-103 | a position it finds lies at or after the start, inside the buffer, and holds a NUL |
| QuadLayout.FindNulFirst | olp-cpp-sdk-dataservice-read/src/repositories/QuadTreeIndex.h:99-103 | the NUL found is the first: none lies between the start and it, and when none is found there is none from the start on |
| QuadLayout.ParseTag | olp-cpp-sdk-dataservice-read/src/repositories/QuadTreeIndex.h:88-111 | a record parses only when its flag byte and 8-byte version field lie inside the tag region, as in the packed `AdditionalDataCompacted` |
| QuadLayout.ParseTagHandleAfterVersion | olp-cpp-sdk-dataservice-read/src/repositories/QuadTreeIndex.h:99-103 | whatever the flags, a parsed handle is the bytes from byte 9 of the record (after the version field) up to the NUL that ends it |
| QuadLayout.UnversionedRecordKeepsVersionField | olp-cpp-sdk-dataservice-read/src/repositories/QuadTreeIndex.h:99-103 | (example) a record with only `kDataHandle` set still holds the version field: `[8, 104, 0]` does not parse, and `[8, 0 ×8, 104, 0]` parses to version 0 and handle `[104]` |
| QuadLayout.ParseTagHandle | olp-cpp-sdk-dataservice-read/src/repositories/QuadTreeIndex.h:99-103 | a parsed handle holds no NUL byte, since it ends at the first one |
| QuadLayout.ParseTagFlags | olp-cpp-sdk-dataservice-read/src/repositories/QuadTreeIndex.h:88-111 | a tag record is a flag byte; without `kVersion` (0x1) the version is 0, without `kDataHandle` (0x8) the handle is empty |
| QuadLayout.ParseEncodedTag | olp-cpp-sdk-dataservice-read/src/repositories/QuadTreeIndex.h:99-111 | a record written with a version and a NUL-terminated handle reads back as the same `AdditionalData` |
| QuadIndex.Default | olp-cpp-sdk-dataservice-read/src/repositories/QuadTreeIndex.h:50 | the default-constructed index is null |
| QuadIndex.FromBlob | olp-cpp-sdk-dataservice-read/src/repositories/QuadTreeIndex.h:51 | an index over a buffer is not null and holds that buffer |
| QuadIndex.HandleRoundTrip | olp-cpp-sdk-dataservice-read/src/repositories/QuadTreeIndex.h:107-111 | a storable handle turns into bytes and back unchanged |
| QuadIndex.IndexOf | olp-cpp-sdk-dataservice-read/src/repositories/QuadTreeIndex.h:61 | the first position holding a key, or none when it is absent |
| QuadIndex.LowerBound | olp-cpp-sdk-dataservice-read/src/repositories/QuadTreeIndex.h:67-69 | binary search over a strictly increasing key array finds exactly what a linear search finds |
| QuadIndex.Find | olp-cpp-sdk-dataservice-read/src/repositories/QuadTreeIndex.h:59-61 | a null index finds nothing; a found entry is for the tile asked about |
| QuadIndex.FoundHandleListed | olp-cpp-sdk-dataservice-read/src/repositories/QuadTreeIndex.h:61 | every handle `Find` returns is among the handles the buffer stores |
| QuadIndex.FindOutsideCoverageIsEmpty | olp-cpp-sdk-dataservice-read/src/repositories/QuadTreeIndex.h:61 | a tile outside the root's subtree and off its ancestor path is an empty answer, not an error |
| QuadIndex.Decode | olp-cpp-sdk-dataservice-read/src/repositories/QuadTreeIndex.h:51 | a buffer is accepted exactly when it is well formed; it is `Truncated` exactly when its regions do not fit |
| QuadIndex.FindBinary | olp-cpp-sdk-dataservice-read/src/repositories/QuadTreeIndex.h:61 | the binary-search lookup over a well-formed buffer returns what `Find` specifies |
| QuadIndex.SortKeepsAll | olp-cpp-sdk-dataservice-read/src/repositories/QuadTreeIndex.h:113-114 | sorting the entry lists keeps every per-entry property |
| QuadIndex.CreateBlob | olp-cpp-sdk-dataservice-read/src/repositories/QuadTreeIndex.h:113-114 | fails only with `InvalidArgument`; succeeds exactly when the arguments fit (valid root, fewer than 256 parents and 65536 subs, every entry within the coverage, storable handles) and the sorted lists repeat no tile and fit their key and offset fields; then there is room for all regions |
| QuadIndex.CreateBlobEmpty | olp-cpp-sdk-dataservice-read/src/repositories/QuadTreeIndex.h:113-114 | an index with no entries can always be created for a valid root whose key and depth fit their fields |
| QuadIndex.BuildLayoutRepresentable | olp-cpp-sdk-dataservice-read/src/repositories/QuadTreeIndex.h:79-85 | the layout built from fitting entry lists has every count, key and offset within its field width |
| QuadIndex.RecordAt | olp-cpp-sdk-dataservice-read/src/repositories/QuadTreeIndex.h:128-133 | each entry's tag record lies at its recorded offset inside the tag data |
| QuadIndex.RecordOffsetIsPrefix | olp-cpp-sdk-dataservice-read/src/repositories/QuadTreeIndex.h:128-133 | the offset recorded for the i-th entry, accumulated record by record, equals the length of all records written before it |
| QuadIndex.CreatedLayout | olp-cpp-sdk-dataservice-read/src/repositories/QuadTreeIndex.h:113-114 | a created buffer parses back to the sorted layout, with strictly increasing keys and the right root |
| QuadIndex.TagOfSub | olp-cpp-sdk-dataservice-read/src/repositories/QuadTreeIndex.h:137 | a record reads back at its offset even when more records follow it |
| QuadIndex.TagAt | olp-cpp-sdk-dataservice-read/src/repositories/QuadTreeIndex.h:137 | every record of the written list parses back, at its own offset, to that entry's version and handle |
| QuadIndex.JoinedIsConcat | olp-cpp-sdk-dataservice-read/src/repositories/QuadTreeIndex.h:113-114 | records are written sub entries first, then parent entries |
| QuadIndex.TagsOfRecordsLayout | olp-cpp-sdk-dataservice-read/src/repositories/QuadTreeIndex.h:135-136 | in a layout whose tag region is the records of a list, each sub entry and each parent entry points at its own record |
| QuadIndex.TagsOfBuiltLayout | olp-cpp-sdk-dataservice-read/src/repositories/QuadTreeIndex.h:135-136 | in a built layout the i-th sub entry's tag parses to the i-th sorted sub entry's data, and likewise for parent entries |
| QuadIndex.FindSubAfterCreateBlob | olp-cpp-sdk-dataservice-read/src/repositories/QuadTreeIndex.h:61-114 | round trip: every sub entry given to `CreateBlob` is found again with its handle and version |
| QuadIndex.FindParentAfterCreateBlob | olp-cpp-sdk-dataservice-read/src/repositories/QuadTreeIndex.h:61-114 | round trip: every parent entry given to `CreateBlob` is found again with its handle and version |
| QuadIndex.FindMissingAfterCreateBlob | olp-cpp-sdk-dataservice-read/src/repositories/QuadTreeIndex.h:61-114 | a tile in neither list is not found in the created buffer |
| QuadIndex.TagsOfLayoutInRange | olp-cpp-sdk-dataservice-read/src/repositories/QuadTreeIndex.h:128-133 | every offset of a built layout points at a complete record inside the tag data |
| QuadIndex.CreateBlobWellFormed | olp-cpp-sdk-dataservice-read/src/repositories/QuadTreeIndex.h:113-114 | a created buffer passes validation |
| CacheKeys.PartitionKey | olp-cpp-sdk-dataservice-read/tests/VersionedLayerClientImplTest.cpp:123-129 | `catalog::layer::partition::version::partition` (no version segment without a version) |
| CacheKeys.DataKey | olp-cpp-sdk-dataservice-read/tests/VersionedLayerClientImplTest.cpp:130-135 | `catalog::layer::handle::Data` |
| CacheKeys.QuadTreeKey | olp-cpp-sdk-dataservice-read/tests/VersionedLayerClientImplTest.cpp:187-191 | `catalog::layer::ToHereTile(root)::version::depth::quadtree` |
| CacheKeys.KeyKindsDistinct | olp-cpp-sdk-dataservice-read/tests/VersionedLayerClientImplTest.cpp:123-135 | partition, data and index keys never collide, whatever their segments |
| CacheKeys.DataKeyIsNotQuadTreeKey | olp-cpp-sdk-dataservice-read/tests/VersionedLayerClientImplTest.cpp:187-197 | a data key is never an index key |
| CacheKeys.DataKeyInjective | olp-cpp-sdk-dataservice-read/tests/VersionedLayerClientImplTest.cpp:130-135 | different handles have different data keys |
| CacheKeys.PartitionKeyInjective | olp-cpp-sdk-dataservice-read/tests/VersionedLayerClientImplTest.cpp:123-129 | for one version, different partitions have different metadata keys |
| CacheKeys.QuadTreeKeyInjective | olp-cpp-sdk-dataservice-read/tests/VersionedLayerClientImplTest.cpp:187-191 | for one version and depth, different valid roots have different index keys |
| VersionedCache.Put | olp-cpp-sdk-dataservice-read/tests/VersionedLayerClientImplTest.cpp:456-477 | a write makes its key readable with the value and leaves every other key as it was |
| VersionedCache.Expire | olp-cpp-sdk-dataservice-read/tests/VersionedLayerClientImplTest.cpp:446-454 | after the expiry time exactly the protected entries can still be read; nothing is dropped from the store |
| VersionedCache.RemovePrefix | olp-cpp-sdk-dataservice-read/tests/VersionedLayerClientImplTest.cpp:142-144 | `RemoveKeysWithPrefix` drops exactly the keys starting with the prefix |
| VersionedCache.RemovePartition | olp-cpp-sdk-dataservice-read/src/VolatileLayerClientImpl.cpp:138-154 | no cached record → true and nothing changes; metadata removal fails → false; otherwise the metadata key is gone and the result is whether the data removal succeeded; after a true result the partition is uncached; entries are only ever removed, and only those under the metadata key or the record's data key |
| VersionedCache.RemoveVolatileTile | olp-cpp-sdk-dataservice-read/src/VolatileLayerClientImpl.cpp:156-159 | removing a tile is removing the partition named `ToHereTile(tile)` without a version: the same cases, the same survivors and the same frame as a partition removal |
| VersionedCache.RemovePartitionKeepsResolution | olp-cpp-sdk-dataservice-read/src/VolatileLayerClientImpl.cpp:138-154 | removing a partition leaves every tile resolving as before when the index it resolves through is not under a removed prefix |
| VersionedCache.FindQuadTree | olp-cpp-sdk-dataservice-read/tests/VersionedLayerClientImplTest.cpp:206-227 | probes the index keys of the tile and `ChangedLevelBy(-1..-4)` in order and returns the first readable one, an ancestor at most 4 levels up |
| VersionedCache.FirstHit | olp-cpp-sdk-dataservice-read/tests/VersionedLayerClientImplTest.cpp:206-227 | when earlier probes miss and probe s hits, the walk stops at s |
| VersionedCache.Resolve | olp-cpp-sdk-dataservice-read/tests/VersionedLayerClientImplTest.cpp:177-232 | a resolved tile has an entry for itself in a readable index at one of its ancestors |
| VersionedCache.ResolveThroughAncestorIndex | olp-cpp-sdk-dataservice-read/tests/VersionedLayerClientImplTest.cpp:177-232 | an index created for `ChangedLevelBy(-4)` and cached there resolves the tile to its entry after four misses |
| VersionedCache.SameResolution | olp-cpp-sdk-dataservice-read/tests/VersionedLayerClientImplTest.cpp:206-227 | two caches that agree on the missed probes and the found index resolve a tile alike |
| VersionedCache.RemoveTile | olp-cpp-sdk-dataservice-read/tests/VersionedLayerClientImplTest.cpp:203-349 | an unresolved tile → true; data removal fails → false; the index is kept while another entry still has data, else removed and its removal decides the result; only keys under the data key or the index key are dropped |
| VersionedCache.RemoveTileKeepsUsedIndex | olp-cpp-sdk-dataservice-read/tests/VersionedLayerClientImplTest.cpp:203-233 | removing a tile whose index still lists cached data removes only the tile's data |
| VersionedCache.RootsFor | olp-cpp-sdk-dataservice-read/tests/VersionedLayerClientImplTest.cpp:512-549 | the index roots a tile list resolves to |
| VersionedCache.TilesUnder | olp-cpp-sdk-dataservice-read/tests/VersionedLayerClientImplTest.cpp:512-549 | the tiles of a list that resolve through a given root |
| VersionedCache.HandlesFor | olp-cpp-sdk-dataservice-read/tests/VersionedLayerClientImplTest.cpp:456-477 | the data handles a tile list resolves to |
| VersionedCache.PinAll | olp-cpp-sdk-dataservice-read/tests/VersionedLayerClientImplTest.cpp:512-549 | a tile is pinned under a root afterwards exactly when it was pinned there before or is a requested tile whose index is that root |
| VersionedCache.ProtectedByCovers | olp-cpp-sdk-dataservice-read/tests/VersionedLayerClientImplTest.cpp:446-477 | protecting a tile protects its index key and its data key |
| VersionedCache.ProtectedIndexWasReadable | olp-cpp-sdk-dataservice-read/tests/VersionedLayerClientImplTest.cpp:446-477 | the only index keys protect adds are ones that were readable |
| VersionedCache.Protect | olp-cpp-sdk-dataservice-read/tests/VersionedLayerClientImplTest.cpp:446-484 | an unknown tile → false, nothing changes; otherwise the store is untouched, the tiles' index and data keys join the protected keys and each tile is pinned under its root |
| VersionedCache.TileSet | olp-cpp-sdk-dataservice-read/tests/VersionedLayerClientImplTest.cpp:485-503 | the set of tiles a list names |
| VersionedCache.Emptied | olp-cpp-sdk-dataservice-read/tests/VersionedLayerClientImplTest.cpp:495-503 | the roots all of whose pinned tiles are released |
| VersionedCache.ReleasedBy | olp-cpp-sdk-dataservice-read/tests/VersionedLayerClientImplTest.cpp:485-503 | release unprotects the tiles' data keys and the index key of every emptied root |
| VersionedCache.Release | olp-cpp-sdk-dataservice-read/tests/VersionedLayerClientImplTest.cpp:485-511 | a tile that is not protected → false, nothing changes; otherwise the tiles are unpinned, emptied roots leave the table, and exactly the released keys are unprotected |
| VersionedCache.ExpireKeepsResolution | olp-cpp-sdk-dataservice-read/tests/VersionedLayerClientImplTest.cpp:446-454 | a tile whose index is protected resolves the same after expiry |
| VersionedCache.ProtectKeepsResolution | olp-cpp-sdk-dataservice-read/tests/VersionedLayerClientImplTest.cpp:446-454 | protecting changes no tile's resolution |
| VersionedCache.PutDataKeepsIndex | olp-cpp-sdk-dataservice-read/tests/VersionedLayerClientImplTest.cpp:456-477 | writing a data blob leaves every index key as it was |
| VersionedCache.PutDataKeepsResolution | olp-cpp-sdk-dataservice-read/tests/VersionedLayerClientImplTest.cpp:456-477 | writing a data blob changes no tile's resolution |
| VersionedCache.ProtectedSurviveExpiry | olp-cpp-sdk-dataservice-read/tests/VersionedLayerClientImplTest.cpp:446-454 | a cached tile that is protected is still cached after the expiry time |
| VersionedCache.ProtectedThenFetchedSurvivesExpiry | olp-cpp-sdk-dataservice-read/tests/VersionedLayerClientImplTest.cpp:456-477 | a tile protected before its data is fetched keeps the fetched data past expiry |
| VersionedCache.ProtectKeepsPins | olp-cpp-sdk-dataservice-read/tests/VersionedLayerClientImplTest.cpp:512-549 | protecting valid tiles keeps the pin-table invariant (pinned tiles resolve under their root, with index and data protected) |
| VersionedCache.ReleaseKeepsUsedIndex | olp-cpp-sdk-dataservice-read/tests/VersionedLayerClientImplTest.cpp:485-494 | an index that keeps a pinned tile stays protected |
| VersionedCache.ReleaseKeepsOtherData | olp-cpp-sdk-dataservice-read/tests/VersionedLayerClientImplTest.cpp:485-494 | data of a handle no released tile uses stays protected |
| VersionedCache.SiblingStaysCached | olp-cpp-sdk-dataservice-read/tests/VersionedLayerClientImplTest.cpp:485-494 | releasing one tile of an index keeps a still protected sibling cached past expiry |
| VersionedCache.ReleasedSiblingsExpire | olp-cpp-sdk-dataservice-read/tests/VersionedLayerClientImplTest.cpp:485-494 | a released tile of an index that keeps a sibling is no longer cached after expiry |
| VersionedCache.ReleaseKeepsResolution | olp-cpp-sdk-dataservice-read/tests/VersionedLayerClientImplTest.cpp:485-503 | releasing changes no resolution whose index stays protected |
| VersionedCache.ReleaseLastUnprotects | olp-cpp-sdk-dataservice-read/tests/VersionedLayerClientImplTest.cpp:495-503 | releasing the last tiles of an index unprotects it, drops its root from the table and lets the data expire |
| PrefetchTiles.NormaliseLevels | olp-cpp-sdk-dataservice-read/src/VolatileLayerClientImpl.cpp:51-55 | a request is only-input exactly when its level range is empty or not addressable; then both bounds become `LevelCount`, else they are kept |
| PrefetchTiles.NormaliseLevelsIdempotent | olp-cpp-sdk-dataservice-read/src/VolatileLayerClientImpl.cpp:194-202 | normalising already normalised levels changes nothing |
| PrefetchTiles.DescendantsAt | olp-cpp-sdk-dataservice-read/src/repositories/PrefetchTilesRepository.h:59-70 | the tiles n levels below a tile are all at that level |
| PrefetchTiles.GetSlicedTiles | olp-cpp-sdk-dataservice-read/src/repositories/PrefetchTilesRepository.h:59-70 | each root gets a depth of at most 4; for an only-input request the roots are exactly the valid input tiles |
| PrefetchTiles.DescendantsAtAreDescendants | olp-cpp-sdk-dataservice-read/src/repositories/PrefetchTilesRepository.h:59-70 | every tile n levels below t has t as ancestor |
| PrefetchTiles.SlicedTilesCover | olp-cpp-sdk-dataservice-read/src/repositories/PrefetchTilesRepository.h:59-70 | every tile of a requested tree between min and max level lies within the depth of some sliced root |
| PrefetchTiles.SlicedTilesSound | olp-cpp-sdk-dataservice-read/src/repositories/PrefetchTilesRepository.h:59-70 | every sliced root lies between min and max level, its depth stays within max, and it is in a requested tree |
| PrefetchTiles.SlicedTilesEmptyIff | olp-cpp-sdk-dataservice-read/src/VolatileLayerClientImpl.cpp:206-216 | slicing finds no root exactly when no requested tile is valid |
| PrefetchTiles.FilterTilesByLevel | olp-cpp-sdk-dataservice-read/src/repositories/PrefetchTilesRepository.h:72-84 | keeps exactly the input tiles within the levels that are a parent or child of a requested tile, with their handles |
| PrefetchTiles.FilterTilesByLevelIdempotent | olp-cpp-sdk-dataservice-read/src/repositories/PrefetchTilesRepository.h:72-84 | filtering by level twice is filtering once |
| PrefetchTiles.NearestAncestorIn | olp-cpp-sdk-dataservice-read/src/repositories/PrefetchTilesRepository.h:86-99 | the closest proper ancestor present among the tiles, or none at any level |
| PrefetchTiles.FilterTilesByList | olp-cpp-sdk-dataservice-read/src/repositories/PrefetchTilesRepository.h:86-99 | keeps requested tiles, adds missing ones with an empty handle, or with aggregation their nearest present ancestor; never invents a handle |
| PrefetchTiles.FilterTilesByListExact | olp-cpp-sdk-dataservice-read/src/repositories/PrefetchTilesRepository.h:86-99 | without aggregation the output tiles are exactly the requested ones |
| PrefetchTiles.FilterTilesByListOnlyAncestors | olp-cpp-sdk-dataservice-read/src/repositories/PrefetchTilesRepository.h:86-99 | with aggregation an unrequested output tile is the nearest ancestor of a missing requested tile |
| PrefetchTiles.DownloadHandle | olp-cpp-sdk-dataservice-read/src/VolatileLayerClientImpl.cpp:236-256 | empty handle → NotFound "Not found"; cached → success without data or fetch; otherwise the fetch's answer |
| PrefetchTiles.AppendResult | olp-cpp-sdk-dataservice-read/src/VolatileLayerClientImpl.cpp:267-277 | appends exactly one outcome for the tile, with no error exactly when the response succeeded, else its error |
| PrefetchTiles.DownloadAll | olp-cpp-sdk-dataservice-read/src/VolatileLayerClientImpl.cpp:236-277 | every filtered tile is reported exactly once with the outcome of its download |
| PrefetchTiles.SubQuadsOf | olp-cpp-sdk-dataservice-read/src/VolatileLayerClientImpl.cpp:221-225 | the merged sub-quad answers only contain tiles the layer knows, with its handles |
| PrefetchTiles.Filter | olp-cpp-sdk-dataservice-read/src/VolatileLayerClientImpl.cpp:227-233 | an only-input request is filtered by list, any other by level |
| PrefetchTiles.PlanTiles | olp-cpp-sdk-dataservice-read/src/VolatileLayerClientImpl.cpp:178-233 | empty tiles → InvalidArgument "Empty tile key list"; no valid tile → InvalidArgument "TileKeys/levels mismatch"; a plan exists exactly when some requested tile is valid; planned handles are the layer's |
| PrefetchTiles.PlanTilesByLevel | olp-cpp-sdk-dataservice-read/src/VolatileLayerClientImpl.cpp:194-233 | a level-range prefetch plans exactly the known tiles of the requested trees within the range |
| PrefetchTiles.PlanTilesByList | olp-cpp-sdk-dataservice-read/src/VolatileLayerClientImpl.cpp:194-233 | an only-input prefetch without aggregation plans exactly the requested tiles with the layer's handles |
| PrefetchTiles.Deliver | olp-cpp-sdk-dataservice-read/src/VolatileLayerClientImpl.cpp:168-174 | a cancelled request is answered Cancelled "Canceled" whatever the work produced; otherwise the work's answer |
| PrefetchTiles.PrefetchTiles | olp-cpp-sdk-dataservice-read/src/VolatileLayerClientImpl.cpp:161-277 | cancelled → Cancelled; a planning error is passed on; an uncancelled request with a plan succeeds; success reports each planned tile once with its outcome |
| PrefetchPartitions.Batches | olp-cpp-sdk-dataservice-read/tests/VersionedLayerClientImplTest.cpp:554-692 | the ids cut, in order, into ceil(n/100) batches of 100, only the last shorter |
| PrefetchPartitions.TwoHundredIdsTwoBatches | olp-cpp-sdk-dataservice-read/tests/VersionedLayerClientImplTest.cpp:554-692 | (example) 200 ids go out as the first hundred and then the second hundred |
| PrefetchPartitions.QueryAll | olp-cpp-sdk-dataservice-read/tests/VersionedLayerClientImplTest.cpp:880-981 | succeeds exactly when every batch answers and parses; otherwise the first failing batch's error, "Fail parsing response." for a body that does not parse |
| PrefetchPartitions.DownloadedIds | olp-cpp-sdk-dataservice-read/tests/VersionedLayerClientImplTest.cpp:721-834 | the prefetched ids are exactly those of partitions with a handle that is cached or fetched; none exactly when no partition is |
| PrefetchPartitions.FetchedHandles | olp-cpp-sdk-dataservice-read/tests/VersionedLayerClientImplTest.cpp:673-691 | the handles cached afterwards are those of the prefetched partitions |
| PrefetchPartitions.DownloadOne | olp-cpp-sdk-dataservice-read/tests/VersionedLayerClientImplTest.cpp:721-791 | a partition without a data handle is not prefetched and moves no bytes; one whose blob is cached is prefetched without a fetch; otherwise one fetch decides both the outcome and the bytes |
| PrefetchPartitions.DownloadAll | olp-cpp-sdk-dataservice-read/tests/VersionedLayerClientImplTest.cpp:721-791 | the download loop yields the prefetched ids, the data bytes and the cached handles the specification functions describe |
| PrefetchPartitions.PrefetchAll | olp-cpp-sdk-dataservice-read/tests/VersionedLayerClientImplTest.cpp:793-1018 | empty → InvalidArgument; version and metadata errors passed on; fails with Unknown "No partitions were prefetched." exactly when none is prefetched; else lists exactly the prefetched ids, caches them, counts all listed partitions and sums the metadata queries' and the blob fetches' bytes |
| PrefetchPartitions.Prefetch | olp-cpp-sdk-dataservice-read/tests/VersionedLayerClientImplTest.cpp:1022-1060 | a cancelled prefetch reports Cancelled; otherwise the prefetch's own answer |
| PrefetchPartitions.AllCachedReportsAll | olp-cpp-sdk-dataservice-read/tests/VersionedLayerClientImplTest.cpp:673-691 | repeating a prefetch whose blobs are all cached reports every id, in order, and moves no data bytes |
| PrefetchPartitions.OneOfFiveSucceeds | olp-cpp-sdk-dataservice-read/tests/VersionedLayerClientImplTest.cpp:721-791 | (example) five partitions, 15 metadata bytes and 3 bytes per fetch, only the first fetch succeeding: one id and 30 bytes |
| ApiLookup.DatastoreHost | olp-cpp-sdk-dataservice-read/src/ApiClientLookup.cpp:44-50 | a host is known exactly for `here`, `here-dev`, `here-cn` and `here-cn-dev` |
| ApiLookup.DatastoreServerUrl | olp-cpp-sdk-dataservice-read/src/ApiClientLookup.cpp:44-55 | `https://api-lookup.` + host + `/lookup/v1` for a known partition, empty for any other |
| ApiLookup.DatastoreHostInjective | olp-cpp-sdk-dataservice-read/src/ApiClientLookup.cpp:45-49 | no two partitions share a host |
| ApiLookup.DatastoreServerUrlInjective | olp-cpp-sdk-dataservice-read/src/ApiClientLookup.cpp:44-55 | a non-empty lookup URL determines its partition |
| ApiLookup.EndpointFor | olp-cpp-sdk-dataservice-read/src/ApiClientLookup.cpp:102-106 | the platform API is asked exactly for service `config` |
| ApiLookup.FirstMatch | olp-cpp-sdk-dataservice-read/src/ApiClientLookup.cpp:124-130 | the first entry with the requested service and version, or none when no entry has both |
| ApiLookup.WriteAll | olp-cpp-sdk-dataservice-read/src/ApiClientLookup.cpp:117-122 | after the writes the cache holds exactly its old pairs and every listed pair |
| ApiLookup.WriteAllLastWins | olp-cpp-sdk-dataservice-read/src/ApiClientLookup.cpp:118-121 | a pair listed last holds that entry's base URL |
| ApiLookup.WriteAllKeepsOthers | olp-cpp-sdk-dataservice-read/src/ApiClientLookup.cpp:118-121 | pairs the answer does not list keep their URL |
| ApiLookup.LookupOnline | olp-cpp-sdk-dataservice-read/src/ApiClientLookup.cpp:95-137 | asks the right API at the partition's lookup URL; a network error is returned unchanged and nothing is cached; otherwise every entry is cached when the options use the cache, even if the service is absent, and the first match is returned, else ServiceUnavailable |
| ApiLookup.LookupApi | olp-cpp-sdk-dataservice-read/src/ApiClientLookup.cpp:58-137 | the mutex is taken exactly unless CacheOnly or OnlineOnly; a cache hit under a cache-reading option is served without a request; a CacheOnly miss is NotFound "CacheOnly: resource not found in cache" without a request |
| ApiLookup.LookupOnlyAddsToCache | olp-cpp-sdk-dataservice-read/src/ApiClientLookup.cpp:75-122 | a lookup never loses a cached pair, and OnlineOnly or CacheWithUpdate never write the cache |
| ApiLookup.SecondLookupServedFromCache | olp-cpp-sdk-dataservice-read/src/ApiClientLookup.cpp:75-137 | after an online lookup under a cache-reading option, a CacheOnly lookup of the same service returns the same URL without a request (when the service is listed once) |
| ApiLookup.DuplicateEntriesServeFirstCacheLast | olp-cpp-sdk-dataservice-read/src/ApiClientLookup.cpp:117-137 | (example) an answer listing the service twice is served from its first entry but cached from its last, so the next cached lookup returns the other URL |

## Left out

- The volatile client's `PrefetchTiles` has two parts this model does not see:
  - `PrefetchTilesHelper` (query scheduling, merging, per-tile download jobs);
  - the body of `PrefetchTilesRepository::GetSlicedTiles`.

  Both are modelled by reference definitions. `GetSlicedTiles` slices the
  level range into bands of five levels (one index of depth 4 each), which
  meets the header's promise. The helper is modelled as merging all
  sub-quad answers, filtering once and downloading each tile once.
  `GetVolatileSubQuads` is not part of this model either. A sub-quad
  answer for a root is modelled to include the root's known ancestors as
  well as its subtree, and the aggregation in `FilterTilesByList` relies
  on this.
- PrefetchTiles.DownloadAll: the results come in whatever order the
  downloads complete, so only "each planned tile exactly once, with its
  outcome" is stated, not an order.
- The versioned client's implementation is not part of this model. Its
  `RemoveFromCache`, `Protect`, `Release` and `PrefetchPartitions` are stated
  from its test file.
- VersionedCache.RemoveTile: a tile whose index is cached but has no entry
  for it is treated like a tile without an index (true, nothing removed).
  The tests do not show this case.
- VersionedCache.Release: unprotects the data key of every released tile,
  even when a still-pinned tile shares its handle. SiblingStaysCached
  therefore assumes distinct handles.
- VersionedCache.RemovePartition: the volatile layer's partition key is
  modelled without a version segment. The volatile cache repository is not
  part of this model.
- PrefetchPartitions.PrefetchAll: only the error code is claimed for an
  empty id list (InvalidArgument). The message is not shown in the modelled
  files.
- PrefetchPartitions.PrefetchAll: does not model whether metadata comes from
  the cache or the network. A query is an oracle returning the answer and its
  byte count.
- PrefetchPartitions.PrefetchAll: does not model the progress callback or
  per-item statistics updates.
- PrefetchPartitions.PrefetchAll: does not model the order of the returned
  ids beyond request order of the listing.
- PrefetchPartitions.PrefetchAll: the byte count sums only the metadata
  queries' and the blob fetches' bytes. The version request and the API
  lookup carry no byte count in the model, so their bytes are not counted.
- Not modelled:
  - concurrency and the task scheduler;
  - the named mutex (only whether it is taken);
  - wall-clock expiry (an explicit `Expire` step);
  - network transport, authentication and JSON parsing.
- The `QuadTreeIndex(root, depth, json)` constructor is not modelled.
  Indexes are built with `CreateBlob` from entry lists.
- The `kCrc` flag is declared but has no shown behaviour. Records are parsed
  without a CRC.
- Struct padding and host byte order are not modelled. The layout is packed
  and little-endian.
- `TileKey` internals other than those used here are not modelled, nor is
  `DefaultCache` storage.
- QuadIndex.CreateBlob: the source's `CreateBlob` returns nothing and is
  declared only. The model refuses, with `InvalidArgument`, inputs whose
  counts, keys or offsets would overflow their fields or that repeat a tile.
- QuadIndex.Decode: `QuadTreeIndex(BlobDataPtr)` is only declared
  (QuadTreeIndex.h:51). Rejecting a buffer whose regions do not fit is a
  modelling choice.
- QuadIndex.Find: `Find` is only declared (QuadTreeIndex.h:61). Looking up
  a tile in the sub entries when it lies in the root's subtree, in the
  parent entries when it lies above the root, and dropping unparsable tags
  in `ToIndexData` are modelling choices.
- QuadLayout.ParseTag: the three `TileData` readers are only declared
  (QuadTreeIndex.h:135-137). The record layout follows the packed
  `AdditionalDataCompacted` struct: the version field is always present and
  the handle starts after it. Reading the version only under `kVersion`
  and refusing a handle with no terminating NUL are modelling choices.
- TileKeys.ChangedLevelBy: clamps at level 0 instead of reporting an error.
  The tests use its result as a tile.
- ApiLookup.LookupApi: the cache is a single catalog's map. The catalog part
  of `ApiCacheRepository`'s keys and the cache's own expiry are not modelled.
