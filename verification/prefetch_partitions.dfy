/** The versioned client's `PrefetchPartitions`: the requested partition ids
    are queried for metadata in batches of 100, every partition with a data
    handle has its blob fetched unless it is cached already, and the call
    reports the ids now cached together with transfer statistics. Metadata
    queries and blob fetches are oracle parameters; whether a metadata
    answer came from the network or the cache is not modelled. */
module PrefetchPartitions {
  import opened Wrappers
  import opened ClientErrors
  import PrefetchTiles

  /** Partition ids per metadata query. */
  const BatchSize: nat := 100

  datatype Partition = Partition(id: string, dataHandle: string)

  /** A metadata answer: the partitions, or `None` when the body does not
      parse, and the bytes the query moved. */
  datatype Metadata = Metadata(partitions: Option<seq<Partition>>, bytes: nat)

  /** A blob fetch: whether it succeeded and the bytes it moved. */
  datatype DataFetch = DataFetch(ok: bool, bytes: nat)

  datatype Status = Status(totalPartitions: nat, prefetchedPartitions: nat, bytesTransferred: nat)

  /** A successful prefetch: the ids now cached, the statistics, and the
      handles cached afterwards. */
  datatype Prefetched = Prefetched(partitions: seq<string>, status: Status, cached: set<string>)

  // --------------------------------------------------------------- batching

  function Flatten<T>(bs: seq<seq<T>>): seq<T> {
    if |bs| == 0 then [] else bs[0] + Flatten(bs[1..])
  }

  /** The ids cut, in order, into consecutive batches of `BatchSize`; only the
      last may be shorter. */
  function Batches<T>(ids: seq<T>): (bs: seq<seq<T>>)
    ensures Flatten(bs) == ids
    ensures forall i :: 0 <= i < |bs| ==> 0 < |bs[i]| <= BatchSize
    ensures forall i :: 0 <= i < |bs| - 1 ==> |bs[i]| == BatchSize
    ensures |bs| == (|ids| + BatchSize - 1) / BatchSize
    decreases |ids|
  {
    if |ids| == 0 then []
    else if |ids| <= BatchSize then [ids]
    else
      var rest := Batches(ids[BatchSize..]);
      assert Flatten([ids[..BatchSize]] + rest) == ids[..BatchSize] + Flatten(rest);
      [ids[..BatchSize]] + rest
  }

  /** Two hundred ids go out as exactly two batches, the first hundred and
      then the second. */
  lemma TwoHundredIdsTwoBatches<T>(ids: seq<T>)
    requires |ids| == 200
    ensures Batches(ids) == [ids[..100], ids[100..]]
  {
    var rest := ids[BatchSize..];
    assert Batches(rest) == [rest];
  }

  // ------------------------------------------------------------ metadata

  predicate BatchOk(m: Result<Metadata, ApiError>) {
    m.Success? && m.value.partitions.Some?
  }

  /** The error a failed batch reports: the query's own, or a parse error. */
  function BatchError(m: Result<Metadata, ApiError>): ApiError {
    if m.Failure? then m.error else ApiError(Unknown, "Fail parsing response.")
  }

  datatype Listing = Listing(partitions: seq<Partition>, bytes: nat)

  /** Queries the batches in order and stops at the first one that fails. */
  function QueryAll(version: nat, bs: seq<seq<string>>, query: (nat, seq<string>) -> Result<Metadata, ApiError>): (r: Result<Listing, ApiError>)
    ensures r.Success? <==> forall i :: 0 <= i < |bs| ==> BatchOk(query(version, bs[i]))
    ensures r.Failure? ==>
              exists i :: 0 <= i < |bs| && !BatchOk(query(version, bs[i])) && r.error == BatchError(query(version, bs[i])) &&
                forall j :: 0 <= j < i ==> BatchOk(query(version, bs[j]))
  {
    if |bs| == 0 then Success(Listing([], 0))
    else
      var m := query(version, bs[0]);
      if !BatchOk(m) then Failure(BatchError(m))
      else
        match QueryAll(version, bs[1..], query)
        case Failure(e) =>
          assert forall i :: 1 <= i < |bs| ==> bs[i] == bs[1..][i - 1];
          Failure(e)
        case Success(l) =>
          assert forall i :: 1 <= i < |bs| ==> bs[i] == bs[1..][i - 1];
          Success(Listing(m.value.partitions.value + l.partitions, m.value.bytes + l.bytes))
  }

  // -------------------------------------------------------------- download

  /** A partition is prefetched when it has a handle and its blob was cached
      already or is fetched now. */
  predicate Downloaded(p: Partition, cached: set<string>, fetch: string -> DataFetch) {
    p.dataHandle != "" && (p.dataHandle in cached || fetch(p.dataHandle).ok)
  }

  /** Bytes moved for one partition: nothing without a handle or with a
      cached blob. */
  function FetchBytes(p: Partition, cached: set<string>, fetch: string -> DataFetch): nat {
    if p.dataHandle == "" || p.dataHandle in cached then 0 else fetch(p.dataHandle).bytes
  }

  /** No listed partition could be prefetched. */
  predicate NoneDownloaded(ps: seq<Partition>, cached: set<string>, fetch: string -> DataFetch) {
    forall i :: 0 <= i < |ps| ==> !Downloaded(ps[i], cached, fetch)
  }

  /** Ids of the prefetched partitions, in request order. */
  function DownloadedIds(ps: seq<Partition>, cached: set<string>, fetch: string -> DataFetch): (ids: seq<string>)
    ensures |ids| <= |ps|
    ensures |ids| == 0 <==> NoneDownloaded(ps, cached, fetch)
    ensures forall id :: id in ids <==> exists i :: 0 <= i < |ps| && ps[i].id == id && Downloaded(ps[i], cached, fetch)
  {
    if |ps| == 0 then []
    else
      var init := DownloadedIds(ps[..|ps| - 1], cached, fetch);
      var last := ps[|ps| - 1];
      assert forall i :: 0 <= i < |ps| - 1 ==> ps[..|ps| - 1][i] == ps[i];
      if Downloaded(last, cached, fetch) then init + [last.id] else init
  }

  function DataBytes(ps: seq<Partition>, cached: set<string>, fetch: string -> DataFetch): nat {
    if |ps| == 0 then 0
    else DataBytes(ps[..|ps| - 1], cached, fetch) + FetchBytes(ps[|ps| - 1], cached, fetch)
  }

  /** Handles fetched successfully, which are cached afterwards. */
  function FetchedHandles(ps: seq<Partition>, cached: set<string>, fetch: string -> DataFetch): (hs: set<string>)
    ensures forall h :: h in hs <==> exists i :: 0 <= i < |ps| && ps[i].dataHandle == h && Downloaded(ps[i], cached, fetch)
  {
    set i | 0 <= i < |ps| && Downloaded(ps[i], cached, fetch) :: ps[i].dataHandle
  }

  /** One partition: nothing to do without a handle, nothing to fetch when
      its blob is cached already, otherwise one fetch. */
  method DownloadOne(p: Partition, cached: set<string>, fetch: string -> DataFetch) returns (ok: bool, moved: nat)
    ensures ok <==> p.dataHandle != "" && (p.dataHandle in cached || fetch(p.dataHandle).ok)
    ensures p.dataHandle == "" || p.dataHandle in cached ==> moved == 0
    ensures p.dataHandle != "" && p.dataHandle !in cached ==> moved == fetch(p.dataHandle).bytes
  {
    ok, moved := false, 0;
    if p.dataHandle != "" {
      if p.dataHandle in cached {
        ok := true;
      } else {
        var f := fetch(p.dataHandle);
        ok, moved := f.ok, f.bytes;
      }
    }
  }

  /** Fetches the partitions one by one, skipping those without a handle and
      those already cached. */
  method DownloadAll(ps: seq<Partition>, cached: set<string>, fetch: string -> DataFetch)
    returns (ids: seq<string>, bytes: nat, nowCached: set<string>)
    ensures ids == DownloadedIds(ps, cached, fetch)
    ensures bytes == DataBytes(ps, cached, fetch)
    ensures nowCached == cached + FetchedHandles(ps, cached, fetch)
  {
    ids, bytes, nowCached := [], 0, cached;
    var i := 0;
    while i < |ps|
      invariant 0 <= i <= |ps|
      invariant ids == DownloadedIds(ps[..i], cached, fetch)
      invariant bytes == DataBytes(ps[..i], cached, fetch)
      invariant nowCached == cached + FetchedHandles(ps[..i], cached, fetch)
    {
      var p := ps[i];
      DownloadStep(ps, i, cached, fetch);
      FetchedHandlesStep(ps, i, cached, fetch);
      var ok, moved := DownloadOne(p, cached, fetch);
      bytes := bytes + moved;
      if ok {
        ids := ids + [p.id];
        nowCached := nowCached + {p.dataHandle};
      }
      i := i + 1;
    }
    assert ps[..|ps|] == ps;
  }

  lemma DownloadStep(ps: seq<Partition>, i: nat, cached: set<string>, fetch: string -> DataFetch)
    requires i < |ps|
    ensures DownloadedIds(ps[..i + 1], cached, fetch) ==
              DownloadedIds(ps[..i], cached, fetch) + (if Downloaded(ps[i], cached, fetch) then [ps[i].id] else [])
    ensures DataBytes(ps[..i + 1], cached, fetch) == DataBytes(ps[..i], cached, fetch) + FetchBytes(ps[i], cached, fetch)
  {
    assert ps[..i + 1][..i] == ps[..i];
    assert ps[..i + 1][i] == ps[i];
  }

  lemma FetchedHandlesStep(ps: seq<Partition>, i: nat, cached: set<string>, fetch: string -> DataFetch)
    requires i < |ps|
    ensures FetchedHandles(ps[..i + 1], cached, fetch) ==
              FetchedHandles(ps[..i], cached, fetch) + (if Downloaded(ps[i], cached, fetch) then {ps[i].dataHandle} else {})
  {
    var a, b := ps[..i + 1], ps[..i];
    assert forall j :: 0 <= j < i ==> a[j] == b[j];
    assert a[i] == ps[i];
  }

  // ------------------------------------------------------------ the prefetch

  /** `PrefetchPartitions` once it is known not to be cancelled: an empty id
      list is an invalid argument; a version or metadata error is passed on;
      a metadata body that does not parse is an unknown error; when no
      partition could be prefetched the call fails; otherwise it lists
      exactly the prefetched ids, all of which are cached afterwards, counts
      every listed partition as processed and sums the bytes of the
      metadata queries and the blob fetches. */
  function PrefetchAll(ids: seq<string>, version: Result<nat, ApiError>,
                       query: (nat, seq<string>) -> Result<Metadata, ApiError>,
                       cached: set<string>, fetch: string -> DataFetch): (r: Result<Prefetched, ApiError>)
    ensures |ids| == 0 ==> r.Failure? && r.error.code == InvalidArgument
    ensures |ids| > 0 && version.Failure? ==> r == Failure(version.error)
    ensures |ids| > 0 && version.Success? && QueryAll(version.value, Batches(ids), query).Failure? ==>
              r == Failure(QueryAll(version.value, Batches(ids), query).error)
    ensures |ids| > 0 && version.Success? && QueryAll(version.value, Batches(ids), query).Success? ==>
              var l := QueryAll(version.value, Batches(ids), query).value;
              && (r.Failure? <==> NoneDownloaded(l.partitions, cached, fetch))
              && (r.Failure? ==> r.error == ApiError(Unknown, "No partitions were prefetched."))
              && (r.Success? ==>
                    && (forall id :: id in r.value.partitions <==>
                          exists i :: 0 <= i < |l.partitions| && l.partitions[i].id == id && Downloaded(l.partitions[i], cached, fetch))
                    && (forall i :: 0 <= i < |l.partitions| && Downloaded(l.partitions[i], cached, fetch) ==>
                          l.partitions[i].dataHandle in r.value.cached)
                    && r.value.status.totalPartitions == |l.partitions| == r.value.status.prefetchedPartitions
                    && r.value.status.bytesTransferred == l.bytes + DataBytes(l.partitions, cached, fetch))
  {
    if |ids| == 0 then Failure(ApiError(InvalidArgument, "Empty partitions list"))
    else if version.Failure? then Failure(version.error)
    else
      match QueryAll(version.value, Batches(ids), query)
      case Failure(e) => Failure(e)
      case Success(l) =>
        var done := DownloadedIds(l.partitions, cached, fetch);
        if |done| == 0 then Failure(ApiError(Unknown, "No partitions were prefetched."))
        else
          Success(Prefetched(done, Status(|l.partitions|, |l.partitions|, l.bytes + DataBytes(l.partitions, cached, fetch)),
                             cached + FetchedHandles(l.partitions, cached, fetch)))
  }

  /** The call as the client makes it: a cancelled request reports
      cancellation whatever the prefetch produced. */
  function Prefetch(ids: seq<string>, cancelled: bool, version: Result<nat, ApiError>,
                    query: (nat, seq<string>) -> Result<Metadata, ApiError>,
                    cached: set<string>, fetch: string -> DataFetch): (r: Result<Prefetched, ApiError>)
    ensures cancelled ==> r.Failure? && r.error.code == Cancelled
    ensures !cancelled ==> r == PrefetchAll(ids, version, query, cached, fetch)
  {
    PrefetchTiles.Deliver(cancelled, PrefetchAll(ids, version, query, cached, fetch))
  }

  /** When every listed partition has a handle that is cached already, a
      repeated prefetch reports all of them, in order, and fetches nothing. */
  lemma {:induction false} AllCachedReportsAll(ps: seq<Partition>, cached: set<string>, fetch: string -> DataFetch)
    requires forall i :: 0 <= i < |ps| ==> ps[i].dataHandle != "" && ps[i].dataHandle in cached
    ensures DownloadedIds(ps, cached, fetch) == seq(|ps|, i requires 0 <= i < |ps| => ps[i].id)
    ensures DataBytes(ps, cached, fetch) == 0
  {
    if |ps| > 0 {
      var init := ps[..|ps| - 1];
      assert forall i :: 0 <= i < |init| ==> init[i] == ps[i];
      AllCachedReportsAll(init, cached, fetch);
    }
  }

  /** The aggregate counts match one request of five partitions whose
      metadata query moved 15 bytes and whose five fetches moved 3 bytes
      each, of which only the first succeeded: one id, five processed, 30
      bytes. */
  lemma OneOfFiveSucceeds(ps: seq<Partition>, fetch: string -> DataFetch)
    requires |ps| == 5
    requires forall i :: 0 <= i < 5 ==> ps[i].dataHandle != "" && fetch(ps[i].dataHandle).bytes == 3
    requires fetch(ps[0].dataHandle).ok
    requires forall i :: 1 <= i < 5 ==> !fetch(ps[i].dataHandle).ok
    ensures DownloadedIds(ps, {}, fetch) == [ps[0].id]
    ensures 15 + DataBytes(ps, {}, fetch) == 30
  {
    var e: set<string> := {};
    assert ps[..1][..0] == [] && ps[..1][0] == ps[0];
    assert DownloadedIds(ps[..1], e, fetch) == [ps[0].id] && DataBytes(ps[..1], e, fetch) == 3;
    assert ps[..2][..1] == ps[..1] && ps[..2][1] == ps[1];
    assert DownloadedIds(ps[..2], e, fetch) == [ps[0].id] && DataBytes(ps[..2], e, fetch) == 6;
    assert ps[..3][..2] == ps[..2] && ps[..3][2] == ps[2];
    assert DownloadedIds(ps[..3], e, fetch) == [ps[0].id] && DataBytes(ps[..3], e, fetch) == 9;
    assert ps[..4][..3] == ps[..3] && ps[..4][3] == ps[3];
    assert DownloadedIds(ps[..4], e, fetch) == [ps[0].id] && DataBytes(ps[..4], e, fetch) == 12;
    assert ps[..4] == ps[..|ps| - 1];
  }
}
