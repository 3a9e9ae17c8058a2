/** The read client's use of the key/value cache: partition metadata, data
    blobs and quadtree indexes stored under the keys of `CacheKeys`; tile
    resolution by walking up to four levels for a cached index; removal of a
    partition or tile; and the protect/release pin table that keeps tiles
    past their expiry. The store is a map; whether one prefix removal
    succeeds is an oracle parameter; the passing of the expiry time is the
    explicit `Expire` step. */
module VersionedCache {
  import opened Wrappers
  import opened Bytes
  import opened TileKeys
  import opened QuadIndex
  import opened CacheKeys

  /** Depth of every quadtree index the client fetches and caches. */
  const QuadTreeDepth: nat := 4

  datatype Value = PartitionValue(partition: string, dataHandle: string) | Blob(bytes: seq<Byte>)

  datatype Entry = Entry(value: Value, expired: bool)

  /** The store, the keys protected from expiry, and the pin table: for each
      index root, the tiles pinned through it. */
  datatype Cache = Cache(store: map<string, Entry>, protectedKeys: set<string>, pins: map<TileKey, set<TileKey>>)

  datatype Layer = Layer(catalog: string, id: string, version: nat)

  // ------------------------------------------------------------------ store

  /** A key can be read: present and either fresh or protected. */
  predicate Visible(c: Cache, k: string) {
    k in c.store && (!c.store[k].expired || k in c.protectedKeys)
  }

  /** Writing a fresh entry. */
  function Put(c: Cache, k: string, v: Value): (d: Cache)
    ensures Visible(d, k) && d.store[k].value == v
    ensures forall k2 :: k2 != k ==> (Visible(d, k2) <==> Visible(c, k2))
    ensures forall k2 :: k2 != k && k2 in d.store ==> k2 in c.store && d.store[k2] == c.store[k2]
    ensures d.protectedKeys == c.protectedKeys && d.pins == c.pins
  {
    c.(store := c.store[k := Entry(v, false)])
  }

  /** The expiry time passes for every entry: afterwards exactly the
      protected entries can still be read. */
  function Expire(c: Cache): (d: Cache)
    ensures forall k :: Visible(d, k) <==> k in c.store && k in c.protectedKeys
    ensures forall k :: k in d.store <==> k in c.store
    ensures forall k :: k in d.store ==> d.store[k].value == c.store[k].value
    ensures d.protectedKeys == c.protectedKeys && d.pins == c.pins
  {
    c.(store := map k | k in c.store :: Entry(c.store[k].value, true))
  }

  /** `RemoveKeysWithPrefix`: drops every key that starts with `prefix`. */
  function RemovePrefix(c: Cache, prefix: string): (d: Cache)
    ensures forall k :: k in d.store <==> k in c.store && !(prefix <= k)
    ensures forall k :: k in d.store ==> d.store[k] == c.store[k]
    ensures d.protectedKeys == c.protectedKeys && d.pins == c.pins
  {
    c.(store := map k | k in c.store && !(prefix <= k) :: c.store[k])
  }

  /** Data handle of a readable partition record under `k`. */
  function CachedPartition(c: Cache, k: string): Option<string> {
    if Visible(c, k) && c.store[k].value.PartitionValue? then Some(c.store[k].value.dataHandle) else None
  }

  /** Bytes of a readable blob under `k`. */
  function CachedBlob(c: Cache, k: string): Option<seq<Byte>> {
    if Visible(c, k) && c.store[k].value.Blob? then Some(c.store[k].value.bytes) else None
  }

  // ------------------------------------------------------ partition removal

  /** Keys a removal of `partition` may drop: those under its metadata key
      and, when a record is readable there, those under its data key. */
  predicate RemovedWithPartition(c: Cache, catalog: string, layerId: string, partition: string,
                                 version: Option<nat>, k: string) {
    var mk := PartitionKey(catalog, layerId, partition, version);
    || mk <= k
    || (CachedPartition(c, mk).Some? && DataKey(catalog, layerId, CachedPartition(c, mk).value) <= k)
  }

  /** `RemoveFromCache(partition)`, shared by the versioned client (with its
      version) and the volatile one (no version): the metadata record is
      looked up; when absent nothing is removed and the call succeeds; else
      its key is removed, then the data blob's, and a failed removal stops
      the call with false. */
  function RemovePartition(c: Cache, catalog: string, layerId: string, partition: string,
                           version: Option<nat>, removeOk: string -> bool): (r: (bool, Cache))
    ensures CachedPartition(c, PartitionKey(catalog, layerId, partition, version)).None? ==> r == (true, c)
    ensures CachedPartition(c, PartitionKey(catalog, layerId, partition, version)).Some? &&
            !removeOk(PartitionKey(catalog, layerId, partition, version)) ==>
              r == (false, c)
    ensures CachedPartition(c, PartitionKey(catalog, layerId, partition, version)).Some? &&
            removeOk(PartitionKey(catalog, layerId, partition, version)) ==>
              PartitionKey(catalog, layerId, partition, version) !in r.1.store &&
              r.0 == removeOk(DataKey(catalog, layerId, CachedPartition(c, PartitionKey(catalog, layerId, partition, version)).value)) &&
              (r.0 ==> DataKey(catalog, layerId, CachedPartition(c, PartitionKey(catalog, layerId, partition, version)).value) !in r.1.store)
    ensures r.0 ==> CachedPartition(r.1, PartitionKey(catalog, layerId, partition, version)).None?
    ensures forall k :: k in r.1.store ==> k in c.store && r.1.store[k] == c.store[k]
    ensures forall k :: k in c.store && !RemovedWithPartition(c, catalog, layerId, partition, version, k) ==> k in r.1.store
    ensures r.1.protectedKeys == c.protectedKeys && r.1.pins == c.pins
  {
    var mk := PartitionKey(catalog, layerId, partition, version);
    match CachedPartition(c, mk)
    case None => (true, c)
    case Some(handle) =>
      if !removeOk(mk) then (false, c)
      else
        var c1 := RemovePrefix(c, mk);
        var dk := DataKey(catalog, layerId, handle);
        if !removeOk(dk) then (false, c1) else (true, RemovePrefix(c1, dk))
  }

  /** The volatile client's `RemoveFromCache(tile)`: the tile is the
      partition named by its `ToHereTile` string, in a layer without
      versions. */
  function RemoveVolatileTile(c: Cache, catalog: string, layerId: string, tile: TileKey,
                              removeOk: string -> bool): (r: (bool, Cache))
    ensures CachedPartition(c, PartitionKey(catalog, layerId, ToHereTile(tile), None)).None? ==> r == (true, c)
    ensures CachedPartition(c, PartitionKey(catalog, layerId, ToHereTile(tile), None)).Some? &&
            !removeOk(PartitionKey(catalog, layerId, ToHereTile(tile), None)) ==>
              r == (false, c)
    ensures CachedPartition(c, PartitionKey(catalog, layerId, ToHereTile(tile), None)).Some? &&
            removeOk(PartitionKey(catalog, layerId, ToHereTile(tile), None)) ==>
              PartitionKey(catalog, layerId, ToHereTile(tile), None) !in r.1.store &&
              r.0 == removeOk(DataKey(catalog, layerId, CachedPartition(c, PartitionKey(catalog, layerId, ToHereTile(tile), None)).value)) &&
              (r.0 ==> DataKey(catalog, layerId, CachedPartition(c, PartitionKey(catalog, layerId, ToHereTile(tile), None)).value) !in r.1.store)
    ensures r.0 ==> CachedPartition(r.1, PartitionKey(catalog, layerId, ToHereTile(tile), None)).None?
    ensures forall k :: k in r.1.store ==> k in c.store && r.1.store[k] == c.store[k]
    ensures forall k :: k in c.store && !RemovedWithPartition(c, catalog, layerId, ToHereTile(tile), None, k) ==> k in r.1.store
    ensures r.1.protectedKeys == c.protectedKeys && r.1.pins == c.pins
  {
    RemovePartition(c, catalog, layerId, ToHereTile(tile), None, removeOk)
  }

  // ------------------------------------------------------------- resolution

  function QuadTreeCacheKey(layer: Layer, root: TileKey): string {
    QuadTreeKey(layer.catalog, layer.id, root, layer.version, QuadTreeDepth)
  }

  function DataCacheKey(layer: Layer, handle: string): string {
    DataKey(layer.catalog, layer.id, handle)
  }

  /** The `j`-th probe of the ancestor walk. */
  function Probe(t: TileKey, j: nat): TileKey {
    ChangedLevelBy(t, -(j as int))
  }

  /** The index found by the walk: the probe step, its root and the blob. */
  datatype Hit = Hit(step: nat, root: TileKey, blob: seq<Byte>)

  function FindQuadTreeFrom(layer: Layer, c: Cache, t: TileKey, j: nat): (r: Option<Hit>)
    requires j <= QuadTreeDepth + 1
    ensures r.Some? ==> j <= r.value.step <= QuadTreeDepth && r.value.root == Probe(t, r.value.step)
    ensures r.Some? ==> CachedBlob(c, QuadTreeCacheKey(layer, r.value.root)) == Some(r.value.blob)
    ensures forall i :: j <= i <= QuadTreeDepth && (r.None? || i < r.value.step) ==>
              CachedBlob(c, QuadTreeCacheKey(layer, Probe(t, i))).None?
    decreases QuadTreeDepth + 1 - j
  {
    if j > QuadTreeDepth then None
    else
      match CachedBlob(c, QuadTreeCacheKey(layer, Probe(t, j)))
      case Some(b) => Some(Hit(j, Probe(t, j), b))
      case None => FindQuadTreeFrom(layer, c, t, j + 1)
  }

  /** `FindQuadTree`: probes the index keys of `t`, `ChangedLevelBy(-1)`, …,
      `ChangedLevelBy(-4)` in that order and stops at the first cached one. */
  function FindQuadTree(layer: Layer, c: Cache, t: TileKey): (r: Option<Hit>)
    ensures r.Some? ==> r.value.step <= QuadTreeDepth && r.value.root == Probe(t, r.value.step)
    ensures r.Some? ==> IsAncestorOrSelf(r.value.root, t) && t.level <= r.value.root.level + QuadTreeDepth
    ensures r.Some? ==> CachedBlob(c, QuadTreeCacheKey(layer, r.value.root)) == Some(r.value.blob)
    ensures forall i :: 0 <= i <= QuadTreeDepth && (r.None? || i < r.value.step) ==>
              CachedBlob(c, QuadTreeCacheKey(layer, Probe(t, i))).None?
  {
    FindQuadTreeFrom(layer, c, t, 0)
  }

  /** A walk whose probes before `s` miss and whose probe `s` hits stops at
      `s`: the first hit is the only possible answer. */
  lemma FirstHit(layer: Layer, c: Cache, t: TileKey, s: nat, b: seq<Byte>)
    requires s <= QuadTreeDepth
    requires forall i :: 0 <= i < s ==> CachedBlob(c, QuadTreeCacheKey(layer, Probe(t, i))).None?
    requires CachedBlob(c, QuadTreeCacheKey(layer, Probe(t, s))) == Some(b)
    ensures FindQuadTree(layer, c, t) == Some(Hit(s, Probe(t, s), b))
  {
  }

  /** What a tile resolves to: the index that covers it and its entry. */
  datatype Resolved = Resolved(root: TileKey, blob: seq<Byte>, entry: IndexData)

  function Resolve(layer: Layer, c: Cache, t: TileKey): (r: Option<Resolved>)
    ensures r.Some? ==> r.value.entry.tileKey == t && IsAncestorOrSelf(r.value.root, t)
    ensures r.Some? ==> CachedBlob(c, QuadTreeCacheKey(layer, r.value.root)) == Some(r.value.blob)
    ensures FindQuadTree(layer, c, t).None? ==> r.None?
  {
    match FindQuadTree(layer, c, t)
    case None => None
    case Some(h) =>
      match Find(FromBlob(h.blob), t)
      case None => None
      case Some(e) => Some(Resolved(h.root, h.blob, e))
  }

  /** `IsCached(tile)`: the tile resolves and its data blob is readable. */
  predicate IsCached(layer: Layer, c: Cache, t: TileKey) {
    match Resolve(layer, c, t)
    case None => false
    case Some(rv) => Visible(c, DataCacheKey(layer, rv.entry.dataHandle))
  }

  /** An index built by `CreateBlob` for `ChangedLevelBy(-4)` and cached
      there, with nothing cached at the nearer probes, resolves every tile it
      lists to its entry. */
  lemma ResolveThroughAncestorIndex(layer: Layer, c: Cache, t: TileKey, parents: seq<IndexData>,
                                    subs: seq<IndexData>, e: IndexData)
    requires forall i :: 0 <= i < QuadTreeDepth ==> CachedBlob(c, QuadTreeCacheKey(layer, Probe(t, i))).None?
    requires CreateBlob(Probe(t, QuadTreeDepth), QuadTreeDepth, parents, subs).Success?
    requires CachedBlob(c, QuadTreeCacheKey(layer, Probe(t, QuadTreeDepth)))
             == Some(CreateBlob(Probe(t, QuadTreeDepth), QuadTreeDepth, parents, subs).value)
    requires e in subs && e.tileKey == t
    ensures Resolve(layer, c, t).Some?
    ensures Resolve(layer, c, t).value.root == Probe(t, QuadTreeDepth) && Resolve(layer, c, t).value.entry == e
  {
    var root := Probe(t, QuadTreeDepth);
    var blob := CreateBlob(root, QuadTreeDepth, parents, subs).value;
    FindSubAfterCreateBlob(root, QuadTreeDepth, parents, subs, e);
    ResolveThroughBlob(layer, c, t, blob, e);
  }

  /** A tile found in the index cached at the farthest probe, with nothing
      cached at the nearer ones, resolves to that entry. */
  lemma ResolveThroughBlob(layer: Layer, c: Cache, t: TileKey, blob: seq<Byte>, e: IndexData)
    requires forall i :: 0 <= i < QuadTreeDepth ==> CachedBlob(c, QuadTreeCacheKey(layer, Probe(t, i))).None?
    requires CachedBlob(c, QuadTreeCacheKey(layer, Probe(t, QuadTreeDepth))) == Some(blob)
    requires Find(FromBlob(blob), t) == Some(e)
    ensures Resolve(layer, c, t) == Some(Resolved(Probe(t, QuadTreeDepth), blob, e))
  {
    FirstHit(layer, c, t, QuadTreeDepth, blob);
    assert FindQuadTree(layer, c, t) == Some(Hit(QuadTreeDepth, Probe(t, QuadTreeDepth), blob));
  }

  /** Two caches that hide every probe `c` hid and agree on the index `t`
      resolved through resolve `t` alike. */
  lemma SameResolution(layer: Layer, c: Cache, d: Cache, t: TileKey)
    requires Resolve(layer, c, t).Some?
    requires forall i :: 0 <= i <= QuadTreeDepth && CachedBlob(c, QuadTreeCacheKey(layer, Probe(t, i))).None? ==>
               CachedBlob(d, QuadTreeCacheKey(layer, Probe(t, i))).None?
    requires CachedBlob(d, QuadTreeCacheKey(layer, Resolve(layer, c, t).value.root)) == Some(Resolve(layer, c, t).value.blob)
    ensures Resolve(layer, d, t) == Resolve(layer, c, t)
  {
    var h := FindQuadTree(layer, c, t).value;
    FirstHit(layer, d, t, h.step, h.blob);
  }

  /** Removing a partition leaves every tile resolving as before, as long as
      the index the tile resolves through is not under a removed prefix. */
  lemma RemovePartitionKeepsResolution(layer: Layer, c: Cache, partition: string, version: Option<nat>,
                                       removeOk: string -> bool, t: TileKey)
    requires Resolve(layer, c, t).Some?
    requires !RemovedWithPartition(c, layer.catalog, layer.id, partition, version,
                                   QuadTreeCacheKey(layer, Resolve(layer, c, t).value.root))
    ensures Resolve(layer, RemovePartition(c, layer.catalog, layer.id, partition, version, removeOk).1, t)
            == Resolve(layer, c, t)
  {
    var d := RemovePartition(c, layer.catalog, layer.id, partition, version, removeOk).1;
    forall i | 0 <= i <= QuadTreeDepth && CachedBlob(c, QuadTreeCacheKey(layer, Probe(t, i))).None?
      ensures CachedBlob(d, QuadTreeCacheKey(layer, Probe(t, i))).None?
    {
    }
    SameResolution(layer, c, d, t);
  }

  // ------------------------------------------------------------ tile removal

  /** Some entry of the index other than the removed one still has data. */
  predicate IndexStillUsed(layer: Layer, c: Cache, blob: seq<Byte>) {
    exists h :: h in Handles(FromBlob(blob)) && Visible(c, DataCacheKey(layer, h))
  }

  /** The versioned client's `RemoveFromCache(tile)`: a tile that does not
      resolve is done; otherwise its data is removed, and the index too once
      no entry of it has data left. A failed removal gives false. */
  function RemoveTile(layer: Layer, c: Cache, t: TileKey, removeOk: string -> bool): (r: (bool, Cache))
    ensures Resolve(layer, c, t).None? ==> r == (true, c)
    ensures Resolve(layer, c, t).Some? ==>
              var rv := Resolve(layer, c, t).value;
              var dk := DataCacheKey(layer, rv.entry.dataHandle);
              && (!removeOk(dk) ==> r == (false, c))
              && (removeOk(dk) ==> dk !in r.1.store)
              && (removeOk(dk) && IndexStillUsed(layer, RemovePrefix(c, dk), rv.blob) ==> r == (true, RemovePrefix(c, dk)))
              && (removeOk(dk) && !IndexStillUsed(layer, RemovePrefix(c, dk), rv.blob) ==>
                    r.0 == removeOk(QuadTreeCacheKey(layer, rv.root)) &&
                    (r.0 ==> QuadTreeCacheKey(layer, rv.root) !in r.1.store))
              && (forall k :: k in c.store && !(dk <= k) && !(QuadTreeCacheKey(layer, rv.root) <= k) ==> k in r.1.store)
    ensures forall k :: k in r.1.store ==> k in c.store && r.1.store[k] == c.store[k]
    ensures r.1.protectedKeys == c.protectedKeys && r.1.pins == c.pins
  {
    match Resolve(layer, c, t)
    case None => (true, c)
    case Some(rv) =>
      var dk := DataCacheKey(layer, rv.entry.dataHandle);
      if !removeOk(dk) then (false, c)
      else
        var c1 := RemovePrefix(c, dk);
        if IndexStillUsed(layer, c1, rv.blob) then (true, c1)
        else
          var qk := QuadTreeCacheKey(layer, rv.root);
          if !removeOk(qk) then (false, c1) else (true, RemovePrefix(c1, qk))
  }

  /** Removing a tile that was listed by a cached index keeps that index as
      long as another of its tiles still has data. */
  lemma RemoveTileKeepsUsedIndex(layer: Layer, c: Cache, t: TileKey, removeOk: string -> bool, other: string)
    requires Resolve(layer, c, t).Some?
    requires removeOk(DataCacheKey(layer, Resolve(layer, c, t).value.entry.dataHandle))
    requires other in Handles(FromBlob(Resolve(layer, c, t).value.blob))
    requires other != Resolve(layer, c, t).value.entry.dataHandle
    requires Visible(c, DataCacheKey(layer, other))
    requires !(DataCacheKey(layer, Resolve(layer, c, t).value.entry.dataHandle) <= DataCacheKey(layer, other))
    ensures RemoveTile(layer, c, t, removeOk) == (true, RemovePrefix(c, DataCacheKey(layer, Resolve(layer, c, t).value.entry.dataHandle)))
  {
    var rv := Resolve(layer, c, t).value;
    var c1 := RemovePrefix(c, DataCacheKey(layer, rv.entry.dataHandle));
    assert Visible(c1, DataCacheKey(layer, other));
    assert IndexStillUsed(layer, c1, rv.blob);
  }

  // --------------------------------------------------------- protect/release

  predicate Pinned(c: Cache, root: TileKey, t: TileKey) {
    root in c.pins && t in c.pins[root]
  }

  predicate AllResolve(layer: Layer, c: Cache, tiles: seq<TileKey>) {
    forall i :: 0 <= i < |tiles| ==> Resolve(layer, c, tiles[i]).Some?
  }

  function RootFor(layer: Layer, c: Cache, t: TileKey): TileKey
    requires Resolve(layer, c, t).Some?
  {
    Resolve(layer, c, t).value.root
  }

  function HandleFor(layer: Layer, c: Cache, t: TileKey): string
    requires Resolve(layer, c, t).Some?
  {
    Resolve(layer, c, t).value.entry.dataHandle
  }

  /** Index roots the tiles resolve to. */
  function RootsFor(layer: Layer, c: Cache, tiles: seq<TileKey>): (roots: set<TileKey>)
    requires AllResolve(layer, c, tiles)
    ensures forall root :: root in roots <==> exists i :: 0 <= i < |tiles| && RootFor(layer, c, tiles[i]) == root
  {
    set i | 0 <= i < |tiles| :: RootFor(layer, c, tiles[i])
  }

  /** Tiles of `tiles` that resolve through `root`. */
  function TilesUnder(layer: Layer, c: Cache, tiles: seq<TileKey>, root: TileKey): (s: set<TileKey>)
    requires AllResolve(layer, c, tiles)
    ensures forall u :: u in s <==> exists i :: 0 <= i < |tiles| && tiles[i] == u && RootFor(layer, c, tiles[i]) == root
  {
    set i | 0 <= i < |tiles| && RootFor(layer, c, tiles[i]) == root :: tiles[i]
  }

  function PinnedUnder(c: Cache, root: TileKey): set<TileKey> {
    if root in c.pins then c.pins[root] else {}
  }

  /** Data handles the tiles resolve to. */
  function HandlesFor(layer: Layer, c: Cache, tiles: seq<TileKey>): (hs: set<string>)
    requires AllResolve(layer, c, tiles)
    ensures forall h :: h in hs <==> exists i :: 0 <= i < |tiles| && HandleFor(layer, c, tiles[i]) == h
  {
    set i | 0 <= i < |tiles| :: HandleFor(layer, c, tiles[i])
  }

  /** Keys `Protect(tiles)` protects: each tile's index and its data. */
  function ProtectedBy(layer: Layer, c: Cache, tiles: seq<TileKey>): set<string>
    requires AllResolve(layer, c, tiles)
  {
    (set root | root in RootsFor(layer, c, tiles) :: QuadTreeCacheKey(layer, root))
    + (set h | h in HandlesFor(layer, c, tiles) :: DataCacheKey(layer, h))
  }

  /** Each tile's index key and data key are among the protected keys. */
  lemma ProtectedByCovers(layer: Layer, c: Cache, tiles: seq<TileKey>, i: nat)
    requires AllResolve(layer, c, tiles) && i < |tiles|
    ensures QuadTreeCacheKey(layer, RootFor(layer, c, tiles[i])) in ProtectedBy(layer, c, tiles)
    ensures DataCacheKey(layer, HandleFor(layer, c, tiles[i])) in ProtectedBy(layer, c, tiles)
  {
    assert RootFor(layer, c, tiles[i]) in RootsFor(layer, c, tiles);
    assert HandleFor(layer, c, tiles[i]) in HandlesFor(layer, c, tiles);
  }

  /** An index key `Protect` newly protects was readable before. */
  lemma ProtectedIndexWasReadable(layer: Layer, c: Cache, tiles: seq<TileKey>, root: TileKey)
    requires AllResolve(layer, c, tiles)
    requires QuadTreeCacheKey(layer, root) in ProtectedBy(layer, c, tiles)
    ensures CachedBlob(c, QuadTreeCacheKey(layer, root)).Some?
  {
    var k := QuadTreeCacheKey(layer, root);
    forall h | h in HandlesFor(layer, c, tiles)
      ensures k != DataCacheKey(layer, h)
    {
      DataKeyIsNotQuadTreeKey(layer.catalog, layer.id, h, root, layer.version, QuadTreeDepth);
    }
    var root2 :| root2 in RootsFor(layer, c, tiles) && k == QuadTreeCacheKey(layer, root2);
    var i :| 0 <= i < |tiles| && RootFor(layer, c, tiles[i]) == root2;
  }

  /** The pin table with every tile added under the root it resolves to. */
  function PinAll(layer: Layer, c: Cache, tiles: seq<TileKey>): (pins: map<TileKey, set<TileKey>>)
    requires AllResolve(layer, c, tiles)
    ensures forall root :: root in pins <==> root in c.pins || root in RootsFor(layer, c, tiles)
    ensures forall root, u :: root in pins && u in pins[root] <==> Pinned(c, root, u) || u in TilesUnder(layer, c, tiles, root)
  {
    map root | root in c.pins.Keys + RootsFor(layer, c, tiles) :: PinnedUnder(c, root) + TilesUnder(layer, c, tiles, root)
  }

  /** `Protect(tiles)`: fails, changing nothing, when a tile does not
      resolve; otherwise pins every tile under its index root and protects
      the index and data keys, whether the data is cached yet or not. */
  function Protect(layer: Layer, c: Cache, tiles: seq<TileKey>): (r: (bool, Cache))
    ensures !AllResolve(layer, c, tiles) ==> r == (false, c)
    ensures AllResolve(layer, c, tiles) ==> r.0 && r.1.store == c.store
    ensures AllResolve(layer, c, tiles) ==> r.1.protectedKeys == c.protectedKeys + ProtectedBy(layer, c, tiles)
    ensures AllResolve(layer, c, tiles) ==>
              forall root, u :: Pinned(r.1, root, u) <==>
                Pinned(c, root, u) || exists i :: 0 <= i < |tiles| && tiles[i] == u && RootFor(layer, c, tiles[i]) == root
    ensures AllResolve(layer, c, tiles) ==>
              forall root :: root in r.1.pins <==> root in c.pins || root in RootsFor(layer, c, tiles)
  {
    if !AllResolve(layer, c, tiles) then (false, c)
    else
      (true, c.(protectedKeys := c.protectedKeys + ProtectedBy(layer, c, tiles), pins := PinAll(layer, c, tiles)))
  }

  /** Tiles of `tiles`, as a set. */
  function TileSet(tiles: seq<TileKey>): (s: set<TileKey>)
    ensures forall t :: t in s <==> exists i :: 0 <= i < |tiles| && tiles[i] == t
  {
    set i | 0 <= i < |tiles| :: tiles[i]
  }

  /** Every tile resolves and is pinned under the root it resolves to. */
  predicate AllPinned(layer: Layer, c: Cache, tiles: seq<TileKey>) {
    forall i :: 0 <= i < |tiles| ==> Resolve(layer, c, tiles[i]).Some? && Pinned(c, RootFor(layer, c, tiles[i]), tiles[i])
  }

  /** Roots whose every pinned tile is released. */
  function Emptied(c: Cache, released: set<TileKey>): (roots: set<TileKey>)
    ensures forall root :: root in roots <==> root in c.pins && c.pins[root] <= released
  {
    set root | root in c.pins && c.pins[root] <= released
  }

  /** Keys `Release(tiles)` unprotects: the tiles' data, and the index of
      every root left without pinned tiles. */
  function ReleasedBy(layer: Layer, c: Cache, tiles: seq<TileKey>): (keys: set<string>)
    requires AllResolve(layer, c, tiles)
    ensures forall k :: k in keys <==>
              (exists i :: 0 <= i < |tiles| && k == DataCacheKey(layer, HandleFor(layer, c, tiles[i]))) ||
              (exists root :: root in Emptied(c, TileSet(tiles)) && k == QuadTreeCacheKey(layer, root))
  {
    (set i | 0 <= i < |tiles| :: DataCacheKey(layer, HandleFor(layer, c, tiles[i])))
    + (set root | root in Emptied(c, TileSet(tiles)) :: QuadTreeCacheKey(layer, root))
  }

  /** `Release(tiles)`: fails, changing nothing, unless every tile resolves
      and is pinned; otherwise unpins them, unprotects their data, and
      unprotects the index of every root left with no pinned tile. */
  function Release(layer: Layer, c: Cache, tiles: seq<TileKey>): (r: (bool, Cache))
    ensures !AllPinned(layer, c, tiles) ==> r == (false, c)
    ensures AllPinned(layer, c, tiles) ==> r.0 && r.1.store == c.store
    ensures AllPinned(layer, c, tiles) ==> r.1.protectedKeys == c.protectedKeys - ReleasedBy(layer, c, tiles)
    ensures AllPinned(layer, c, tiles) ==>
              forall root, u :: Pinned(r.1, root, u) <==> Pinned(c, root, u) && u !in TileSet(tiles)
    ensures AllPinned(layer, c, tiles) ==>
              forall root :: root in r.1.pins <==> root in c.pins && root !in Emptied(c, TileSet(tiles))
  {
    if !AllPinned(layer, c, tiles) then (false, c)
    else
      var released := TileSet(tiles);
      var pins := map root | root in c.pins && !(c.pins[root] <= released) :: c.pins[root] - released;
      (true, c.(protectedKeys := c.protectedKeys - ReleasedBy(layer, c, tiles), pins := pins))
  }

  /** The pin table's invariant: a pinned tile resolves, through a valid
      root, to the index it is pinned under, and that index and the tile's
      data are protected. */
  ghost predicate PinsHold(layer: Layer, c: Cache) {
    && (forall root :: root in c.pins ==> Valid(root))
    && forall root, u :: Pinned(c, root, u) ==>
      Resolve(layer, c, u).Some? && RootFor(layer, c, u) == root &&
      QuadTreeCacheKey(layer, root) in c.protectedKeys &&
      DataCacheKey(layer, HandleFor(layer, c, u)) in c.protectedKeys
  }

  /** Expiry does not change how a tile resolves while its index is
      protected: the probes before it stay unreadable and it stays readable. */
  lemma ExpireKeepsResolution(layer: Layer, c: Cache, t: TileKey)
    requires Resolve(layer, c, t).Some?
    requires QuadTreeCacheKey(layer, RootFor(layer, c, t)) in c.protectedKeys
    ensures Resolve(layer, Expire(c), t) == Resolve(layer, c, t)
  {
    var d := Expire(c);
    forall i | 0 <= i <= QuadTreeDepth && CachedBlob(c, QuadTreeCacheKey(layer, Probe(t, i))).None?
      ensures CachedBlob(d, QuadTreeCacheKey(layer, Probe(t, i))).None?
    {
      var k := QuadTreeCacheKey(layer, Probe(t, i));
      if Visible(d, k) {
        assert Visible(c, k);
      }
    }
    SameResolution(layer, c, d, t);
  }

  /** Protecting changes no resolution: the only keys it newly protects are
      indexes that were readable already and data keys, which are never
      probed. */
  lemma ProtectKeepsResolution(layer: Layer, c: Cache, tiles: seq<TileKey>, t: TileKey)
    requires AllResolve(layer, c, tiles) && Resolve(layer, c, t).Some?
    ensures Resolve(layer, Protect(layer, c, tiles).1, t) == Resolve(layer, c, t)
  {
    var d := Protect(layer, c, tiles).1;
    forall i | 0 <= i <= QuadTreeDepth && CachedBlob(c, QuadTreeCacheKey(layer, Probe(t, i))).None?
      ensures CachedBlob(d, QuadTreeCacheKey(layer, Probe(t, i))).None?
    {
      if QuadTreeCacheKey(layer, Probe(t, i)) in ProtectedBy(layer, c, tiles) {
        ProtectedIndexWasReadable(layer, c, tiles, Probe(t, i));
      }
    }
    SameResolution(layer, c, d, t);
  }

  /** Writing a data blob leaves every index key as it was. */
  lemma PutDataKeepsIndex(layer: Layer, c: Cache, h: string, v: Value, root: TileKey)
    ensures CachedBlob(Put(c, DataCacheKey(layer, h), v), QuadTreeCacheKey(layer, root)) == CachedBlob(c, QuadTreeCacheKey(layer, root))
  {
    DataKeyIsNotQuadTreeKey(layer.catalog, layer.id, h, root, layer.version, QuadTreeDepth);
  }

  /** Writing a data blob changes no resolution: data keys are never
      probed. */
  lemma PutDataKeepsResolution(layer: Layer, c: Cache, t: TileKey, h: string, v: Value)
    requires Resolve(layer, c, t).Some?
    ensures Resolve(layer, Put(c, DataCacheKey(layer, h), v), t) == Resolve(layer, c, t)
  {
    forall j | 0 <= j <= QuadTreeDepth
      ensures CachedBlob(Put(c, DataCacheKey(layer, h), v), QuadTreeCacheKey(layer, Probe(t, j)))
              == CachedBlob(c, QuadTreeCacheKey(layer, Probe(t, j)))
    {
      PutDataKeepsIndex(layer, c, h, v, Probe(t, j));
    }
    PutDataKeepsIndex(layer, c, h, v, RootFor(layer, c, t));
    SameResolution(layer, c, Put(c, DataCacheKey(layer, h), v), t);
  }

  /** Protecting cached tiles keeps them cached past the expiry time. */
  lemma ProtectedSurviveExpiry(layer: Layer, c: Cache, tiles: seq<TileKey>, i: nat)
    requires AllResolve(layer, c, tiles) && i < |tiles|
    requires IsCached(layer, c, tiles[i])
    ensures IsCached(layer, Expire(Protect(layer, c, tiles).1), tiles[i])
  {
    var t := tiles[i];
    var d := Protect(layer, c, tiles).1;
    ProtectKeepsResolution(layer, c, tiles, t);
    ProtectedByCovers(layer, c, tiles, i);
    ExpireKeepsResolution(layer, d, t);
  }

  /** A tile protected before its data is fetched keeps the data, once
      fetched, past the expiry time. */
  lemma ProtectedThenFetchedSurvivesExpiry(layer: Layer, c: Cache, tiles: seq<TileKey>, i: nat, data: seq<Byte>)
    requires AllResolve(layer, c, tiles) && i < |tiles|
    ensures var d := Put(Protect(layer, c, tiles).1, DataCacheKey(layer, HandleFor(layer, c, tiles[i])), Blob(data));
            IsCached(layer, Expire(d), tiles[i])
  {
    var t := tiles[i];
    var p := Protect(layer, c, tiles).1;
    var d := Put(p, DataCacheKey(layer, HandleFor(layer, c, t)), Blob(data));
    ProtectKeepsResolution(layer, c, tiles, t);
    ProtectedByCovers(layer, c, tiles, i);
    PutDataKeepsResolution(layer, p, t, HandleFor(layer, c, t), Blob(data));
    ExpireKeepsResolution(layer, d, t);
  }

  /** Protecting keeps the pin table's invariant, for tiles that are valid
      keys. */
  lemma ProtectKeepsPins(layer: Layer, c: Cache, tiles: seq<TileKey>)
    requires PinsHold(layer, c) && AllResolve(layer, c, tiles)
    requires forall i :: 0 <= i < |tiles| ==> Valid(tiles[i])
    ensures PinsHold(layer, Protect(layer, c, tiles).1)
  {
    var d := Protect(layer, c, tiles).1;
    forall root | root in d.pins
      ensures Valid(root)
    {
      if root !in c.pins {
        var i :| 0 <= i < |tiles| && RootFor(layer, c, tiles[i]) == root;
        AncestorValid(tiles[i], root.level);
      }
    }
    forall root, u | Pinned(d, root, u)
      ensures Resolve(layer, d, u).Some? && RootFor(layer, d, u) == root
      ensures QuadTreeCacheKey(layer, root) in d.protectedKeys
      ensures DataCacheKey(layer, HandleFor(layer, d, u)) in d.protectedKeys
    {
      if Pinned(c, root, u) {
        ProtectKeepsResolution(layer, c, tiles, u);
      } else {
        var i :| 0 <= i < |tiles| && tiles[i] == u && RootFor(layer, c, tiles[i]) == root;
        ProtectKeepsResolution(layer, c, tiles, u);
        ProtectedByCovers(layer, c, tiles, i);
      }
    }
  }

  /** A root keeping a pinned tile keeps its index protected. */
  lemma ReleaseKeepsUsedIndex(layer: Layer, c: Cache, tiles: seq<TileKey>, root: TileKey)
    requires PinsHold(layer, c) && AllPinned(layer, c, tiles)
    requires root in c.pins && root !in Emptied(c, TileSet(tiles))
    ensures QuadTreeCacheKey(layer, root) !in ReleasedBy(layer, c, tiles)
  {
    var qk := QuadTreeCacheKey(layer, root);
    forall root2 | root2 in Emptied(c, TileSet(tiles))
      ensures QuadTreeCacheKey(layer, root2) != qk
    {
      if QuadTreeCacheKey(layer, root2) == qk {
        QuadTreeKeyInjective(layer.catalog, layer.id, root2, root, layer.version, QuadTreeDepth);
      }
    }
    forall i | 0 <= i < |tiles|
      ensures qk != DataCacheKey(layer, HandleFor(layer, c, tiles[i]))
    {
      DataKeyIsNotQuadTreeKey(layer.catalog, layer.id, HandleFor(layer, c, tiles[i]), root, layer.version, QuadTreeDepth);
    }
  }

  /** A handle none of the released tiles uses keeps its data protected. */
  lemma ReleaseKeepsOtherData(layer: Layer, c: Cache, tiles: seq<TileKey>, h: string)
    requires AllPinned(layer, c, tiles)
    requires forall i :: 0 <= i < |tiles| ==> HandleFor(layer, c, tiles[i]) != h
    ensures DataCacheKey(layer, h) !in ReleasedBy(layer, c, tiles)
  {
    forall i | 0 <= i < |tiles|
      ensures DataCacheKey(layer, h) != DataCacheKey(layer, HandleFor(layer, c, tiles[i]))
    {
      if DataCacheKey(layer, h) == DataCacheKey(layer, HandleFor(layer, c, tiles[i])) {
        DataKeyInjective(layer.catalog, layer.id, h, HandleFor(layer, c, tiles[i]));
      }
    }
    forall root2 | root2 in Emptied(c, TileSet(tiles))
      ensures DataCacheKey(layer, h) != QuadTreeCacheKey(layer, root2)
    {
      DataKeyIsNotQuadTreeKey(layer.catalog, layer.id, h, root2, layer.version, QuadTreeDepth);
    }
  }

  /** Releasing some tiles of an index keeps a still pinned sibling cached
      past expiry. */
  lemma SiblingStaysCached(layer: Layer, c: Cache, tiles: seq<TileKey>, root: TileKey, u: TileKey)
    requires PinsHold(layer, c) && AllPinned(layer, c, tiles)
    requires Pinned(c, root, u) && u !in TileSet(tiles) && IsCached(layer, c, u)
    requires forall i :: 0 <= i < |tiles| ==> HandleFor(layer, c, tiles[i]) != HandleFor(layer, c, u)
    ensures IsCached(layer, Expire(Release(layer, c, tiles).1), u)
  {
    var d := Release(layer, c, tiles).1;
    assert root !in Emptied(c, TileSet(tiles));
    ReleaseKeepsUsedIndex(layer, c, tiles, root);
    ReleaseKeepsOtherData(layer, c, tiles, HandleFor(layer, c, u));
    ReleaseKeepsResolution(layer, c, tiles, u);
    ExpireKeepsResolution(layer, d, u);
  }

  /** The released tiles of an index that keeps a pinned sibling are no
      longer cached once expired: the index still resolves them, but their
      data is unprotected. */
  lemma ReleasedSiblingsExpire(layer: Layer, c: Cache, tiles: seq<TileKey>, root: TileKey, u: TileKey, i: nat)
    requires PinsHold(layer, c) && AllPinned(layer, c, tiles)
    requires Pinned(c, root, u) && u !in TileSet(tiles)
    requires i < |tiles| && RootFor(layer, c, tiles[i]) == root
    ensures !IsCached(layer, Expire(Release(layer, c, tiles).1), tiles[i])
  {
    var d := Release(layer, c, tiles).1;
    assert root !in Emptied(c, TileSet(tiles));
    ReleaseKeepsUsedIndex(layer, c, tiles, root);
    ReleaseKeepsResolution(layer, c, tiles, tiles[i]);
    ExpireKeepsResolution(layer, d, tiles[i]);
    assert DataCacheKey(layer, HandleFor(layer, c, tiles[i])) in ReleasedBy(layer, c, tiles);
  }

  /** Releasing never makes an index readable that was not, so a tile whose
      index is still protected resolves as before. */
  lemma ReleaseKeepsResolution(layer: Layer, c: Cache, tiles: seq<TileKey>, t: TileKey)
    requires AllPinned(layer, c, tiles) && Resolve(layer, c, t).Some?
    requires QuadTreeCacheKey(layer, RootFor(layer, c, t)) in Release(layer, c, tiles).1.protectedKeys
    ensures Resolve(layer, Release(layer, c, tiles).1, t) == Resolve(layer, c, t)
  {
    var d := Release(layer, c, tiles).1;
    forall i | 0 <= i <= QuadTreeDepth && CachedBlob(c, QuadTreeCacheKey(layer, Probe(t, i))).None?
      ensures CachedBlob(d, QuadTreeCacheKey(layer, Probe(t, i))).None?
    {
      var k := QuadTreeCacheKey(layer, Probe(t, i));
      if Visible(d, k) {
        assert Visible(c, k);
      }
    }
    SameResolution(layer, c, d, t);
  }

  /** Releasing the last pinned tiles of an index unprotects the index, and
      the released tiles' data is unreadable once expired. */
  lemma ReleaseLastUnprotects(layer: Layer, c: Cache, tiles: seq<TileKey>, i: nat)
    requires AllPinned(layer, c, tiles) && i < |tiles|
    requires c.pins[RootFor(layer, c, tiles[i])] <= TileSet(tiles)
    ensures QuadTreeCacheKey(layer, RootFor(layer, c, tiles[i])) !in Release(layer, c, tiles).1.protectedKeys
    ensures !Visible(Expire(Release(layer, c, tiles).1), DataCacheKey(layer, HandleFor(layer, c, tiles[i])))
    ensures RootFor(layer, c, tiles[i]) !in Release(layer, c, tiles).1.pins
  {
    var root := RootFor(layer, c, tiles[i]);
    assert root in Emptied(c, TileSet(tiles));
    assert QuadTreeCacheKey(layer, root) in ReleasedBy(layer, c, tiles);
    assert DataCacheKey(layer, HandleFor(layer, c, tiles[i])) in ReleasedBy(layer, c, tiles);
  }
}
