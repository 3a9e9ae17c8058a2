/** The string keys under which the read client stores partition metadata,
    data blobs and quadtree indexes in the key/value cache. Segments are
    joined with `::`; each key kind ends in its own fixed word. */
module CacheKeys {
  import opened Wrappers
  import opened Strings
  import opened TileKeys

  const Separator: string := "::"

  /** The catalog and layer every key starts with. */
  function LayerPrefix(catalog: string, layer: string): string {
    catalog + Separator + layer + Separator
  }

  /** Partition metadata: `catalog::layer::partition::version::partition`;
      a volatile layer has no version segment. */
  function PartitionKey(catalog: string, layer: string, partition: string, version: Option<nat>): (k: string)
    ensures |k| > 0 && k[|k| - 1] == 'n'
  {
    LayerPrefix(catalog, layer) + (partition + PartitionSuffix(version))
  }

  function PartitionSuffix(version: Option<nat>): string {
    Separator + (if version.Some? then NatToString(version.value) + Separator else "") + "partition"
  }

  /** Data blob: `catalog::layer::handle::Data`. */
  function DataKey(catalog: string, layer: string, handle: string): (k: string)
    ensures |k| > 0 && k[|k| - 1] == 'a'
  {
    LayerPrefix(catalog, layer) + (handle + (Separator + "Data"))
  }

  /** Quadtree index: `catalog::layer::root::version::depth::quadtree`, the
      root in its `ToHereTile` form. */
  function QuadTreeKey(catalog: string, layer: string, root: TileKey, version: nat, depth: nat): (k: string)
    ensures |k| > 0 && k[|k| - 1] == 'e'
  {
    LayerPrefix(catalog, layer) + (ToHereTile(root) + QuadTreeSuffix(version, depth))
  }

  function QuadTreeSuffix(version: nat, depth: nat): (s: string)
    ensures |s| > 0 && s[0] == ':'
  {
    Separator + NatToString(version) + Separator + NatToString(depth) + Separator + "quadtree"
  }

  /** Equal keys under the same layer prefix have equal remainders. */
  lemma StripPrefix(p: string, x: string, y: string)
    requires p + x == p + y
    ensures x == y
  {
    assert x == (p + x)[|p|..];
    assert y == (p + y)[|p|..];
  }

  /** The three kinds of key never collide, whatever their segments. */
  lemma KeyKindsDistinct(catalog: string, layer: string, partition: string, version: Option<nat>,
                         handle: string, root: TileKey, v: nat, depth: nat)
    ensures PartitionKey(catalog, layer, partition, version) != DataKey(catalog, layer, handle)
    ensures PartitionKey(catalog, layer, partition, version) != QuadTreeKey(catalog, layer, root, v, depth)
    ensures DataKey(catalog, layer, handle) != QuadTreeKey(catalog, layer, root, v, depth)
  {
  }

  /** The data and index keys of a layer never collide. */
  lemma DataKeyIsNotQuadTreeKey(catalog: string, layer: string, handle: string, root: TileKey, version: nat, depth: nat)
    ensures DataKey(catalog, layer, handle) != QuadTreeKey(catalog, layer, root, version, depth)
  {
  }

  /** Different handles of a layer have different data keys. */
  lemma DataKeyInjective(catalog: string, layer: string, h1: string, h2: string)
    requires DataKey(catalog, layer, h1) == DataKey(catalog, layer, h2)
    ensures h1 == h2
  {
    var tail := Separator + "Data";
    StripPrefix(LayerPrefix(catalog, layer), h1 + tail, h2 + tail);
    assert h1 == (h1 + tail)[..|h1|];
    assert h2 == (h2 + tail)[..|h2|];
  }

  /** For one version, different partitions have different metadata keys. */
  lemma PartitionKeyInjective(catalog: string, layer: string, p1: string, p2: string, version: Option<nat>)
    requires PartitionKey(catalog, layer, p1, version) == PartitionKey(catalog, layer, p2, version)
    ensures p1 == p2
  {
    var tail := PartitionSuffix(version);
    StripPrefix(LayerPrefix(catalog, layer), p1 + tail, p2 + tail);
    assert p1 == (p1 + tail)[..|p1|];
    assert p2 == (p2 + tail)[..|p2|];
  }

  /** For one version and depth, different valid roots have different index
      keys: the decimal root segment ends at the first separator. */
  lemma QuadTreeKeyInjective(catalog: string, layer: string, a: TileKey, b: TileKey, version: nat, depth: nat)
    requires Valid(a) && Valid(b)
    requires QuadTreeKey(catalog, layer, a, version, depth) == QuadTreeKey(catalog, layer, b, version, depth)
    ensures a == b
  {
    var sfx := QuadTreeSuffix(version, depth);
    var sa, sb := ToHereTile(a), ToHereTile(b);
    StripPrefix(LayerPrefix(catalog, layer), sa + sfx, sb + sfx);
    assert sfx == [':'] + sfx[1..];
    assert sa + sfx == sa + [':'] + sfx[1..];
    assert sb + sfx == sb + [':'] + sfx[1..];
    DigitsThenSeparator(sa, sfx[1..], sb, sfx[1..], ':');
    ToHereTileInjective(a, b);
  }
}
