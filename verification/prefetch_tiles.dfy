/** Planning and aggregation of a volatile layer's tile prefetch: which index
    roots are queried, how the returned tiles are filtered against the
    request, which handles are downloaded, and how per-tile outcomes are
    reported. */
module PrefetchTiles {
  import opened Wrappers
  import opened ClientErrors
  import opened TileKeys
  import opened Bytes

  /** Depth of every sub-quad query the volatile client issues. */
  const QuadTreeDepth: nat := 4

  /** A tile prefetch request: tiles, a level range and whether a missing tile
      may be answered by its nearest cached ancestor. */
  datatype Request = Request(tileKeys: seq<TileKey>, minLevel: nat, maxLevel: nat, aggregated: bool)

  /** Tile to data handle, as a sub-quad query returns (`SubQuadsResult`). */
  type SubQuads = map<TileKey, string>

  /** Index root to query depth (`RootTilesForRequest`). */
  type RootTiles = map<TileKey, nat>

  // ------------------------------------------------------------------ levels

  /** The request asks for its own tiles only, because its level range is
      empty or not addressable. */
  predicate IsOnlyInputTiles(r: Request) {
    !(r.minLevel <= r.maxLevel && r.maxLevel < LevelCount && r.minLevel < LevelCount)
  }

  /** The level range slicing works with. */
  datatype Levels = Levels(onlyInput: bool, min: nat, max: nat)

  /** Level normalisation: an only-input request is sliced at `LevelCount`
      for both bounds, any other keeps its own range. */
  function NormaliseLevels(r: Request): (l: Levels)
    ensures l.onlyInput == IsOnlyInputTiles(r)
    ensures l.onlyInput ==> l.min == LevelCount && l.max == LevelCount
    ensures !l.onlyInput ==> l.min == r.minLevel && l.max == r.maxLevel
    ensures !l.onlyInput ==> l.min <= l.max < LevelCount
  {
    if IsOnlyInputTiles(r) then Levels(true, LevelCount, LevelCount)
    else Levels(false, r.minLevel, r.maxLevel)
  }

  /** Normalised levels describe the same kind of request: feeding them back
      gives the same levels again. */
  lemma NormaliseLevelsIdempotent(r: Request)
    ensures var l := NormaliseLevels(r);
            NormaliseLevels(r.(minLevel := l.min, maxLevel := l.max)) == l
  {
  }

  // ----------------------------------------------------------------- slicing

  /** The tiles exactly `n` levels below `t`. */
  function DescendantsAt(t: TileKey, n: nat): (s: set<TileKey>)
    ensures forall d :: d in s ==> d.level == t.level + n
  {
    if n == 0 then {t}
    else set p, q | p in DescendantsAt(t, n - 1) && 0 <= q < 4 :: Child(p, q)
  }

  /** Starting levels of the slices of `[lo, hi]`: one index of depth up to
      `QuadTreeDepth` covers `QuadTreeDepth + 1` levels. */
  function SliceLevels(lo: nat, hi: nat): set<nat> {
    set l: nat | lo <= l <= hi && SliceStart(lo, l)
  }

  predicate SliceStart(lo: nat, l: nat)
    requires lo <= l
  {
    (l - lo) % (QuadTreeDepth + 1) == 0
  }

  /** The index roots of `t` at `level`: its ancestor when the level is
      coarser, all its descendants there when it is finer. */
  function RootsAt(t: TileKey, level: nat): set<TileKey> {
    if level <= t.level then {ChangedLevelTo(t, level)} else DescendantsAt(t, level - t.level)
  }

  function RootsOf(t: TileKey, lo: nat, hi: nat): set<TileKey> {
    set l, r | l in SliceLevels(lo, hi) && r in RootsAt(t, l) :: r
  }

  /** Query depth of a root: at most `QuadTreeDepth` and never below `hi`. */
  function RootDepth(root: TileKey, hi: nat): nat {
    if hi < root.level then 0
    else if hi - root.level < QuadTreeDepth then hi - root.level else QuadTreeDepth
  }

  /** `GetSlicedTiles`: the index roots (with their depth) that together cover
      the requested tiles' trees between `lo` and `hi`. For `lo == hi ==
      LevelCount` the input tiles themselves are the roots, at depth 0.
      Invalid tiles contribute nothing. */
  function GetSlicedTiles(tiles: seq<TileKey>, lo: nat, hi: nat): (m: RootTiles)
    ensures lo == LevelCount && hi == LevelCount ==>
              forall r :: r in m <==> r in tiles && Valid(r)
    ensures forall r :: r in m ==> m[r] <= QuadTreeDepth
  {
    if lo == LevelCount && hi == LevelCount then
      map t | t in tiles && Valid(t) :: 0
    else
      map r | r in SlicedRoots(tiles, lo, hi) :: RootDepth(r, hi)
  }

  function SlicedRoots(tiles: seq<TileKey>, lo: nat, hi: nat): set<TileKey> {
    set t, r | t in tiles && Valid(t) && r in RootsOf(t, lo, hi) :: r
  }

  /** `x` is covered by the index at `root` of the given depth. */
  predicate Covers(root: TileKey, depth: nat, x: TileKey) {
    IsAncestorOrSelf(root, x) && x.level - root.level <= depth
  }

  /** `x` is a tile of the request's trees: an ancestor, the tile itself, or
      a descendant of a requested tile. */
  predicate Related(tiles: seq<TileKey>, x: TileKey) {
    exists i :: 0 <= i < |tiles| && (IsAncestorOrSelf(tiles[i], x) || IsAncestorOrSelf(x, tiles[i]))
  }

  lemma {:induction false} DescendantIn(t: TileKey, r: TileKey)
    requires IsAncestorOrSelf(t, r)
    ensures r in DescendantsAt(t, r.level - t.level)
    decreases r.level - t.level
  {
    if r.level > t.level {
      var p := Parent(r);
      assert ChangedLevelTo(r, t.level) == ChangedLevelTo(p, t.level);
      DescendantIn(t, p);
      ChildOfParent(r);
      assert r == Child(p, Quadrant(r));
    }
  }

  lemma {:induction false} DescendantsAtAreDescendants(t: TileKey, n: nat, d: TileKey)
    requires d in DescendantsAt(t, n)
    ensures IsAncestorOrSelf(t, d)
    decreases n
  {
    if n > 0 {
      var p, q :| p in DescendantsAt(t, n - 1) && 0 <= q < 4 && d == Child(p, q);
      DescendantsAtAreDescendants(t, n - 1, p);
      ParentOfChild(p, q);
      assert ChangedLevelTo(d, t.level) == ChangedLevelTo(p, t.level);
    }
  }

  /** The slice root covering `x`: its ancestor at the start of its slice. */
  function CoveringRoot(x: TileKey, lo: nat): TileKey
    requires lo <= x.level
  {
    ChangedLevelTo(x, lo + (x.level - lo) / (QuadTreeDepth + 1) * (QuadTreeDepth + 1))
  }

  /** Coverage: every tile of the requested trees with a level in `[lo, hi]`
      lies in the index of some sliced root, within that root's depth. */
  lemma SlicedTilesCover(tiles: seq<TileKey>, lo: nat, hi: nat, x: TileKey)
    requires lo <= hi < LevelCount
    requires lo <= x.level <= hi
    requires exists i :: 0 <= i < |tiles| && Valid(tiles[i]) && (IsAncestorOrSelf(tiles[i], x) || IsAncestorOrSelf(x, tiles[i]))
    ensures CoveringRoot(x, lo) in GetSlicedTiles(tiles, lo, hi)
    ensures Covers(CoveringRoot(x, lo), GetSlicedTiles(tiles, lo, hi)[CoveringRoot(x, lo)], x)
  {
    var i :| 0 <= i < |tiles| && Valid(tiles[i]) && (IsAncestorOrSelf(tiles[i], x) || IsAncestorOrSelf(x, tiles[i]));
    var t := tiles[i];
    var l := lo + (x.level - lo) / (QuadTreeDepth + 1) * (QuadTreeDepth + 1);
    var r := CoveringRoot(x, lo);
    assert l in SliceLevels(lo, hi);
    assert IsAncestorOrSelf(r, x) by {
      ChangedLevelToTwice(x, l, l);
    }
    if l <= t.level {
      if IsAncestorOrSelf(x, t) {
        ChangedLevelToTwice(t, x.level, l);
      } else {
        ChangedLevelToTwice(x, t.level, l);
      }
      assert r in RootsAt(t, l);
    } else {
      assert IsAncestorOrSelf(t, x);
      ChangedLevelToTwice(x, l, t.level);
      DescendantIn(t, r);
      assert r in RootsAt(t, l);
    }
    assert r in RootsOf(t, lo, hi);
  }

  /** Soundness: every sliced root lies in `[lo, hi]`, its index stays within
      `hi`, and it belongs to a valid requested tile's tree. */
  lemma SlicedTilesSound(tiles: seq<TileKey>, lo: nat, hi: nat, r: TileKey)
    requires lo <= hi < LevelCount
    requires r in GetSlicedTiles(tiles, lo, hi)
    ensures lo <= r.level <= hi
    ensures r.level + GetSlicedTiles(tiles, lo, hi)[r] <= hi
    ensures Related(tiles, r)
  {
    assert r in SlicedRoots(tiles, lo, hi);
    var t :| t in tiles && Valid(t) && r in RootsOf(t, lo, hi);
    var l :| l in SliceLevels(lo, hi) && r in RootsAt(t, l);
    var i :| 0 <= i < |tiles| && tiles[i] == t;
    if l <= t.level {
      assert r == ChangedLevelTo(t, l);
      assert IsAncestorOrSelf(r, t);
    } else {
      DescendantsAtAreDescendants(t, l - t.level, r);
    }
    assert r.level == l;
  }

  /** Slicing a non-empty valid range finds a root exactly when some tile is
      valid; this is when the request gets past the level check. */
  lemma SlicedTilesEmptyIff(tiles: seq<TileKey>, lo: nat, hi: nat)
    requires (lo <= hi < LevelCount) || (lo == LevelCount && hi == LevelCount)
    ensures |GetSlicedTiles(tiles, lo, hi)| == 0 <==> forall i :: 0 <= i < |tiles| ==> !Valid(tiles[i])
  {
    var m := GetSlicedTiles(tiles, lo, hi);
    if i :| 0 <= i < |tiles| && Valid(tiles[i]) {
      if lo == LevelCount {
        assert tiles[i] in m;
      } else {
        var x := ChangedLevelTo(tiles[i], lo);
        if lo <= tiles[i].level {
          assert IsAncestorOrSelf(x, tiles[i]) by {
            ChangedLevelToTwice(tiles[i], lo, lo);
          }
        } else {
          assert IsAncestorOrSelf(tiles[i], x) by {
            ChangedLevelToDescends(tiles[i], lo);
          }
        }
        SlicedTilesCover(tiles, lo, hi, x);
      }
      assert |m| > 0;
    } else {
      assert forall r :: r !in m;
      assert m.Keys == {};
    }
  }

  /** Walking down with `ChangedLevelTo` stays inside the tile. */
  lemma {:induction false} ChangedLevelToDescends(t: TileKey, level: nat)
    requires t.level <= level
    ensures IsAncestorOrSelf(t, ChangedLevelTo(t, level))
    decreases level - t.level
  {
    if level > t.level {
      var c := Child(t, 0);
      ChangedLevelToDescends(c, level);
      ParentOfChild(t, 0);
      assert ChangedLevelTo(c, t.level) == t;
      AncestorTransitive(t, c, ChangedLevelTo(c, level));
    }
  }

  // ----------------------------------------------------------------- filters

  predicate InLevels(r: Request, x: TileKey) {
    r.minLevel <= x.level <= r.maxLevel
  }

  /** `FilterTilesByLevel`: keeps the tiles within the request's levels that
      belong to a requested tile's tree, with their handles. */
  function FilterTilesByLevel(r: Request, tiles: SubQuads): (out: SubQuads)
    ensures forall x :: x in out ==> x in tiles && out[x] == tiles[x]
    ensures forall x :: x in out ==> InLevels(r, x) && Related(r.tileKeys, x)
    ensures forall x :: x in tiles && InLevels(r, x) && Related(r.tileKeys, x) ==> x in out
  {
    map x | x in tiles && InLevels(r, x) && Related(r.tileKeys, x) :: tiles[x]
  }

  /** Filtering twice removes nothing more. */
  lemma FilterTilesByLevelIdempotent(r: Request, tiles: SubQuads)
    ensures FilterTilesByLevel(r, FilterTilesByLevel(r, tiles)) == FilterTilesByLevel(r, tiles)
  {
  }

  /** The closest ancestor of `t` (not `t` itself) present in `tiles`. */
  function NearestAncestorIn(tiles: SubQuads, t: TileKey): (a: Option<TileKey>)
    ensures a.Some? ==> a.value in tiles && IsAncestorOrSelf(a.value, t) && a.value.level < t.level
    ensures a.Some? ==> forall l: nat :: a.value.level < l < t.level ==> ChangedLevelTo(t, l) !in tiles
    ensures a.None? ==> forall l: nat :: l < t.level ==> ChangedLevelTo(t, l) !in tiles
    decreases t.level
  {
    if t.level == 0 then None
    else if Parent(t) in tiles then
      assert ChangedLevelTo(t, t.level - 1) == Parent(t);
      Some(Parent(t))
    else NearestAncestorIn(tiles, Parent(t))
  }

  /** What the list filter reports for requested tile `k`: the tile itself,
      or with aggregation its nearest ancestor when `k` has no entry. */
  function ListedTile(r: Request, tiles: SubQuads, k: TileKey): TileKey {
    if k !in tiles && r.aggregated && NearestAncestorIn(tiles, k).Some?
    then NearestAncestorIn(tiles, k).value else k
  }

  /** An entry only ever reports the handle the input had; a tile without
      one is reported with the empty handle, which later reads as not found. */
  function HandleIn(tiles: SubQuads, x: TileKey): string {
    if x in tiles then tiles[x] else ""
  }

  /** `FilterTilesByList`: keeps only the requested tiles (or, with
      aggregation, the ancestors standing in for them) and adds every requested
      tile that has no entry. */
  function FilterTilesByList(r: Request, tiles: SubQuads): (out: SubQuads)
    ensures forall x :: x in out ==> out[x] == HandleIn(tiles, x)
    ensures forall x :: x in out ==> x in r.tileKeys || (r.aggregated && x in tiles)
    ensures forall k :: k in r.tileKeys && k in tiles ==> k in out
    ensures forall k :: k in r.tileKeys && k !in tiles && !(r.aggregated && NearestAncestorIn(tiles, k).Some?) ==>
              k in out && out[k] == ""
    ensures forall k :: k in r.tileKeys && k !in tiles && r.aggregated && NearestAncestorIn(tiles, k).Some? ==>
              NearestAncestorIn(tiles, k).value in out
  {
    var listed := set k | k in r.tileKeys :: ListedTile(r, tiles, k);
    map x | x in listed :: HandleIn(tiles, x)
  }

  /** Without aggregation the list filter reports exactly the requested
      tiles. */
  lemma FilterTilesByListExact(r: Request, tiles: SubQuads)
    requires !r.aggregated
    ensures forall x :: x in FilterTilesByList(r, tiles) <==> x in r.tileKeys
  {
  }

  /** With aggregation every reported tile that was not requested is the
      nearest present ancestor of a requested tile that had no entry. */
  lemma FilterTilesByListOnlyAncestors(r: Request, tiles: SubQuads, x: TileKey)
    requires x in FilterTilesByList(r, tiles) && x !in r.tileKeys
    ensures exists k :: k in r.tileKeys && k !in tiles && NearestAncestorIn(tiles, k) == Some(x)
  {
    var k :| k in r.tileKeys && ListedTile(r, tiles, k) == x;
  }

  // ---------------------------------------------------------------- download

  /** A data response: the payload, or `None` for data already in the cache. */
  type DataResponse = Result<Option<seq<Byte>>, ApiError>

  /** The data side of the layer: the handles already cached and what an
      online fetch of a handle returns. */
  datatype DataStore = DataStore(cached: set<string>, fetch: string -> Result<seq<Byte>, ApiError>)

  datatype Download = Download(response: DataResponse, fetched: bool)

  /** The download step for one handle: an empty handle is not found, a cached
      one succeeds without a payload, and only otherwise is data fetched. */
  function DownloadHandle(handle: string, store: DataStore): (d: Download)
    ensures handle == "" ==> d.response == Failure(ApiError(NotFound, "Not found"))
    ensures handle != "" && handle in store.cached ==> d.response == Success(None)
    ensures d.fetched <==> handle != "" && handle !in store.cached
    ensures d.fetched ==> (d.response.Success? <==> store.fetch(handle).Success?)
    ensures d.fetched && d.response.Success? ==> d.response.value == Some(store.fetch(handle).value)
    ensures d.fetched && d.response.Failure? ==> d.response.error == store.fetch(handle).error
  {
    if handle == "" then Download(Failure(ApiError(NotFound, "Not found")), false)
    else if handle in store.cached then Download(Success(None), false)
    else
      match store.fetch(handle)
      case Success(bytes) => Download(Success(Some(bytes)), true)
      case Failure(e) => Download(Failure(e), true)
  }

  /** One outcome per prefetched tile; no error means it was prefetched. */
  datatype TileResult = TileResult(tile: TileKey, error: Option<ApiError>)

  function ErrorOf(response: DataResponse): Option<ApiError> {
    if response.Success? then None else Some(response.error)
  }

  /** `append_result`: adds exactly one outcome for `tile`, carrying the
      response's error when there is one. */
  function AppendResult(response: DataResponse, tile: TileKey, results: seq<TileResult>): (out: seq<TileResult>)
    ensures |out| == |results| + 1 && out[..|results|] == results
    ensures out[|results|].tile == tile
    ensures out[|results|].error.None? <==> response.Success?
    ensures response.Failure? ==> out[|results|].error == Some(response.error)
  {
    results + [TileResult(tile, ErrorOf(response))]
  }

  /** The outcome expected for a tile to be downloaded with `handle`. */
  function Outcome(tile: TileKey, handle: string, store: DataStore): TileResult {
    TileResult(tile, ErrorOf(DownloadHandle(handle, store).response))
  }

  /** `results` reports every tile of `tiles` exactly once, each with the
      outcome of downloading its handle. */
  predicate ReportsEachOnce(results: seq<TileResult>, tiles: SubQuads, store: DataStore) {
    && |results| == |tiles.Keys|
    && (forall i :: 0 <= i < |results| ==>
          results[i].tile in tiles && results[i] == Outcome(results[i].tile, tiles[results[i].tile], store))
    && (forall i, j :: 0 <= i < j < |results| ==> results[i].tile != results[j].tile)
    && (forall t :: t in tiles ==> exists i :: 0 <= i < |results| && results[i].tile == t)
  }

  /** `res` is the expected outcome for a tile of `tiles`. */
  predicate IsOutcome(res: TileResult, tiles: SubQuads, store: DataStore) {
    res.tile in tiles && res == Outcome(res.tile, tiles[res.tile], store)
  }

  /** `results` reports the tiles of `done`, each once and with its outcome. */
  predicate ReportsDone(results: seq<TileResult>, tiles: SubQuads, done: set<TileKey>, store: DataStore) {
    && done <= tiles.Keys
    && |results| == |done|
    && (forall i :: 0 <= i < |results| ==> results[i].tile in done && IsOutcome(results[i], tiles, store))
    && (forall i, j :: 0 <= i < j < |results| ==> results[i].tile != results[j].tile)
    && (forall t :: t in done ==> exists i :: 0 <= i < |results| && results[i].tile == t)
  }

  lemma SetStep(done: set<TileKey>, pending: set<TileKey>, all: set<TileKey>, t: TileKey)
    requires done + pending == all && done !! pending && t in pending
    ensures done + {t} + (pending - {t}) == all && done + {t} !! pending - {t}
    ensures |pending - {t}| < |pending| && |done + {t}| == |done| + 1
  {
  }

  lemma ReportsDoneStep(results: seq<TileResult>, tiles: SubQuads, done: set<TileKey>, pending: set<TileKey>, store: DataStore, o: TileResult)
    requires done + pending == tiles.Keys && done !! pending
    requires ReportsDone(results, tiles, done, store)
    requires o.tile in pending && IsOutcome(o, tiles, store)
    ensures ReportsDone(results + [o], tiles, done + {o.tile}, store)
  {
    SetStep(done, pending, tiles.Keys, o.tile);
    StepDistinct(results, done, o);
    StepCovers(results, done, o);
    StepOutcomes(results, done, tiles, store, o);
  }

  lemma StepOutcomes(results: seq<TileResult>, done: set<TileKey>, tiles: SubQuads, store: DataStore, o: TileResult)
    requires forall i :: 0 <= i < |results| ==> results[i].tile in done && IsOutcome(results[i], tiles, store)
    requires IsOutcome(o, tiles, store)
    ensures forall i :: 0 <= i < |results + [o]| ==>
              (results + [o])[i].tile in done + {o.tile} && IsOutcome((results + [o])[i], tiles, store)
  {
    var next := results + [o];
    forall i | 0 <= i < |next|
      ensures next[i].tile in done + {o.tile} && IsOutcome(next[i], tiles, store)
    {
      if i < |results| {
        assert next[i] == results[i];
      }
    }
  }

  lemma StepDistinct(results: seq<TileResult>, done: set<TileKey>, o: TileResult)
    requires forall i :: 0 <= i < |results| ==> results[i].tile in done
    requires forall i, j :: 0 <= i < j < |results| ==> results[i].tile != results[j].tile
    requires o.tile !in done
    ensures forall i, j :: 0 <= i < j < |results + [o]| ==> (results + [o])[i].tile != (results + [o])[j].tile
  {
  }

  lemma StepCovers(results: seq<TileResult>, done: set<TileKey>, o: TileResult)
    requires forall t :: t in done ==> exists i :: 0 <= i < |results| && results[i].tile == t
    ensures forall t :: t in done + {o.tile} ==> exists i :: 0 <= i < |results + [o]| && (results + [o])[i].tile == t
  {
    var next := results + [o];
    forall u | u in done + {o.tile}
      ensures exists i :: 0 <= i < |next| && next[i].tile == u
    {
      if u == o.tile {
        assert next[|results|].tile == u;
      } else {
        var i :| 0 <= i < |results| && results[i].tile == u;
        assert next[i].tile == u;
      }
    }
  }

  /** Appending a tile's result is appending its expected outcome. */
  lemma AppendOutcome(results: seq<TileResult>, tiles: SubQuads, store: DataStore, t: TileKey)
    requires t in tiles
    ensures AppendResult(DownloadHandle(tiles[t], store).response, t, results) == results + [Outcome(t, tiles[t], store)]
  {
  }

  lemma ReportsAll(results: seq<TileResult>, tiles: SubQuads, store: DataStore)
    requires ReportsDone(results, tiles, tiles.Keys, store)
    ensures ReportsEachOnce(results, tiles, store)
  {
    forall i | 0 <= i < |results|
      ensures results[i].tile in tiles && results[i] == Outcome(results[i].tile, tiles[results[i].tile], store)
    {
      assert IsOutcome(results[i], tiles, store);
    }
  }

  /** Downloads every filtered tile and collects one outcome each, in
      whatever order the downloads complete. */
  method DownloadAll(tiles: SubQuads, store: DataStore) returns (results: seq<TileResult>)
    ensures ReportsEachOnce(results, tiles, store)
  {
    var pending := tiles.Keys;
    ghost var done: set<TileKey> := {};
    results := [];
    while pending != {}
      invariant done + pending == tiles.Keys && done !! pending
      invariant ReportsDone(results, tiles, done, store)
      decreases |pending|
    {
      var t :| t in pending;
      SetStep(done, pending, tiles.Keys, t);
      ReportsDoneStep(results, tiles, done, pending, store, Outcome(t, tiles[t], store));
      AppendOutcome(results, tiles, store, t);
      results := AppendResult(DownloadHandle(tiles[t], store).response, t, results);
      done, pending := done + {t}, pending - {t};
    }
    ReportsAll(results, tiles, store);
  }

  // ------------------------------------------------------------ the prefetch

  /** The layer as prefetch sees it: the handle of every tile the service
      knows, and the data side. */
  datatype Layer = Layer(content: SubQuads, store: DataStore)

  /** What a sub-quad query for `root` returns: the known tiles of its index
      down to `QuadTreeDepth`, and its ancestors. */
  predicate Queried(root: TileKey, x: TileKey) {
    Covers(root, QuadTreeDepth, x) || IsAncestorOrSelf(x, root)
  }

  /** The tiles all sub-quad queries for `roots` return, merged. */
  function SubQuadsOf(content: SubQuads, roots: set<TileKey>): (tiles: SubQuads)
    ensures forall x :: x in tiles ==> x in content && tiles[x] == content[x]
  {
    map x | x in content && (exists root :: root in roots && Queried(root, x)) :: content[x]
  }

  /** Validation, slicing, querying and filtering: the tiles to download.
      An empty request and a request whose tiles give no root are rejected;
      an only-input request is filtered by list, any other by level. */
  function PlanTiles(r: Request, layer: Layer): (plan: Result<SubQuads, ApiError>)
    ensures |r.tileKeys| == 0 ==> plan == Failure(ApiError(InvalidArgument, "Empty tile key list"))
    ensures |r.tileKeys| > 0 && (forall i :: 0 <= i < |r.tileKeys| ==> !Valid(r.tileKeys[i])) ==>
              plan == Failure(ApiError(InvalidArgument, "TileKeys/levels mismatch"))
    ensures plan.Failure? ==> plan.error.code == InvalidArgument
    ensures plan.Success? <==> exists i :: 0 <= i < |r.tileKeys| && Valid(r.tileKeys[i])
    ensures plan.Success? ==> forall x :: x in plan.value && plan.value[x] != "" ==>
              x in layer.content && plan.value[x] == layer.content[x]
  {
    if |r.tileKeys| == 0 then Failure(ApiError(InvalidArgument, "Empty tile key list"))
    else
      var l := NormaliseLevels(r);
      var sliced := GetSlicedTiles(r.tileKeys, l.min, l.max);
      SlicedTilesEmptyIff(r.tileKeys, l.min, l.max);
      if |sliced| == 0 then Failure(ApiError(InvalidArgument, "TileKeys/levels mismatch"))
      else Success(Filter(r, l.onlyInput, SubQuadsOf(layer.content, sliced.Keys)))
  }

  /** The filter choice: by list for an only-input request, by level
      otherwise. Either way no handle is invented. */
  function Filter(r: Request, onlyInput: bool, tiles: SubQuads): (out: SubQuads)
    ensures onlyInput ==> out == FilterTilesByList(r, tiles)
    ensures !onlyInput ==> out == FilterTilesByLevel(r, tiles)
    ensures forall x :: x in out && out[x] != "" ==> x in tiles && out[x] == tiles[x]
  {
    if onlyInput then FilterTilesByList(r, tiles) else FilterTilesByLevel(r, tiles)
  }

  /** A level-range prefetch plans exactly the known tiles of the requested
      trees within the range. */
  lemma PlanTilesByLevel(r: Request, layer: Layer, x: TileKey)
    requires !IsOnlyInputTiles(r) && PlanTiles(r, layer).Success?
    ensures x in PlanTiles(r, layer).value ==> x in layer.content && InLevels(r, x) && Related(r.tileKeys, x)
    ensures x in layer.content && InLevels(r, x) && ValidlyRelated(r.tileKeys, x) ==> x in PlanTiles(r, layer).value
  {
    if x in layer.content && InLevels(r, x) && ValidlyRelated(r.tileKeys, x) {
      var sliced := GetSlicedTiles(r.tileKeys, r.minLevel, r.maxLevel);
      SlicedTilesCover(r.tileKeys, r.minLevel, r.maxLevel, x);
      var root := CoveringRoot(x, r.minLevel);
      assert Queried(root, x);
      assert x in SubQuadsOf(layer.content, sliced.Keys);
      var i :| 0 <= i < |r.tileKeys| && Valid(r.tileKeys[i]) && (IsAncestorOrSelf(r.tileKeys[i], x) || IsAncestorOrSelf(x, r.tileKeys[i]));
      assert Related(r.tileKeys, x);
    }
  }

  /** `x` belongs to the tree of a valid requested tile. */
  predicate ValidlyRelated(tiles: seq<TileKey>, x: TileKey) {
    exists i :: 0 <= i < |tiles| && Valid(tiles[i]) && (IsAncestorOrSelf(tiles[i], x) || IsAncestorOrSelf(x, tiles[i]))
  }

  /** An only-input prefetch without aggregation plans exactly the requested
      tiles, each valid one with the layer's handle for it (empty when the
      layer has none). */
  lemma PlanTilesByList(r: Request, layer: Layer, k: TileKey)
    requires IsOnlyInputTiles(r) && !r.aggregated && PlanTiles(r, layer).Success?
    ensures k in PlanTiles(r, layer).value <==> k in r.tileKeys
    ensures k in r.tileKeys && Valid(k) ==> PlanTiles(r, layer).value[k] == HandleIn(layer.content, k)
  {
    var sliced := GetSlicedTiles(r.tileKeys, LevelCount, LevelCount);
    var tiles := SubQuadsOf(layer.content, sliced.Keys);
    FilterTilesByListExact(r, tiles);
    if k in r.tileKeys && Valid(k) {
      assert k in sliced;
      assert Queried(k, k);
      assert k in layer.content ==> k in tiles;
    }
  }

  /** The callback wrapper: once the request is cancelled the caller is told
      so, whatever the work produced. */
  function Deliver<T>(cancelled: bool, response: Result<T, ApiError>): (out: Result<T, ApiError>)
    ensures cancelled ==> out == Failure(ApiError(Cancelled, "Canceled"))
    ensures !cancelled ==> out == response
  {
    if cancelled then Failure(ApiError(Cancelled, "Canceled")) else response
  }

  /** `PrefetchTiles`: plans the tiles, downloads each, and reports one
      outcome per planned tile through the cancellation-aware callback. */
  method PrefetchTiles(r: Request, layer: Layer, cancelled: bool) returns (response: Result<seq<TileResult>, ApiError>)
    ensures cancelled ==> response == Failure(ApiError(Cancelled, "Canceled"))
    ensures !cancelled && PlanTiles(r, layer).Failure? ==> response == Failure(PlanTiles(r, layer).error)
    ensures !cancelled && PlanTiles(r, layer).Success? ==> response.Success?
    ensures response.Success? ==>
              PlanTiles(r, layer).Success? && ReportsEachOnce(response.value, PlanTiles(r, layer).value, layer.store)
  {
    var plan := PlanTiles(r, layer);
    var inner: Result<seq<TileResult>, ApiError>;
    if plan.Failure? {
      inner := Failure(plan.error);
    } else {
      var results := DownloadAll(plan.value, layer.store);
      inner := Success(results);
    }
    response := Deliver(cancelled, inner);
  }
}
