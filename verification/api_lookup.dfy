/** `ApiClientLookup::LookupApi`: how the read client finds the base URL of a
    service of a catalog. Depending on the fetch options it serves the URL
    from the API cache, or asks the lookup service of the catalog's
    partition for the list of APIs, stores that list in the cache and picks
    the first entry for the requested service and version. The lookup
    request itself is an oracle parameter; the named mutex is reduced to
    whether it is taken. */
module ApiLookup {
  import opened Wrappers
  import opened ClientErrors

  datatype FetchOptions = OnlineIfNotFound | OnlineOnly | CacheOnly | CacheWithUpdate

  /** One entry of a lookup answer. */
  datatype Api = Api(api: string, version: string, baseUrl: string)

  /** The platform API answers for the "config" service, the resources API
      for every other. */
  datatype Endpoint = PlatformApi | ResourcesApi

  /** A lookup request: which API is asked, at which lookup URL. */
  datatype Request = Request(endpoint: Endpoint, lookupUrl: string)

  /** The API cache of one catalog: base URL by (service, version). */
  type ApiCache = map<(string, string), string>

  /** What one call did: its answer, the cache afterwards, the request it
      sent (if any) and whether it took the catalog's mutex. */
  datatype Outcome = Outcome(result: Result<string, ApiError>, cache: ApiCache, request: Option<Request>, locked: bool)

  // ------------------------------------------------------------ lookup URL

  /** Data store host of each known platform partition. */
  function DatastoreHost(partition: string): (h: Option<string>)
    ensures h.Some? <==> partition in ["here", "here-dev", "here-cn", "here-cn-dev"]
  {
    if partition == "here" then Some("data.api.platform.here.com")
    else if partition == "here-dev" then Some("data.api.platform.sit.here.com")
    else if partition == "here-cn" then Some("data.api.platform.hereolp.cn")
    else if partition == "here-cn-dev" then Some("data.api.platform.in.hereolp.cn")
    else None
  }

  const LookupPrefix: string := "https://api-lookup."
  const LookupSuffix: string := "/lookup/v1"

  /** `GetDatastoreServerUrl`: the lookup URL of a partition, empty for an
      unknown partition. */
  function DatastoreServerUrl(partition: string): (url: string)
    ensures url == "" <==> DatastoreHost(partition).None?
    ensures url != "" ==> url == LookupPrefix + DatastoreHost(partition).value + LookupSuffix
  {
    match DatastoreHost(partition)
    case None => ""
    case Some(host) => LookupPrefix + host + LookupSuffix
  }

  /** Distinct partitions have distinct hosts. */
  lemma DatastoreHostInjective(p: string, q: string)
    requires DatastoreHost(p).Some? && DatastoreHost(p) == DatastoreHost(q)
    ensures p == q
  {
  }

  lemma StripAround(x: string, y: string)
    requires LookupPrefix + x + LookupSuffix == LookupPrefix + y + LookupSuffix
    ensures x == y
  {
    var a, b := LookupPrefix + x + LookupSuffix, LookupPrefix + y + LookupSuffix;
    assert |x| == |y|;
    assert x == a[|LookupPrefix|..|LookupPrefix| + |x|];
    assert y == b[|LookupPrefix|..|LookupPrefix| + |y|];
  }

  /** A non-empty lookup URL names its partition: two known partitions never
      share a lookup service. */
  lemma DatastoreServerUrlInjective(p: string, q: string)
    requires DatastoreServerUrl(p) == DatastoreServerUrl(q) != ""
    ensures p == q
  {
    StripAround(DatastoreHost(p).value, DatastoreHost(q).value);
    DatastoreHostInjective(p, q);
  }

  // -------------------------------------------------------------- policy

  /** The catalog's mutex is taken unless the call goes only to the cache or
      only online. */
  predicate TakesLock(options: FetchOptions) {
    options != CacheOnly && options != OnlineOnly
  }

  /** The cache is read first, and written afterwards, unless the call must
      go online. */
  predicate UsesCache(options: FetchOptions) {
    options != OnlineOnly && options != CacheWithUpdate
  }

  function EndpointFor(service: string): (e: Endpoint)
    ensures e == PlatformApi <==> service == "config"
  {
    if service == "config" then PlatformApi else ResourcesApi
  }

  function Key(a: Api): (string, string) {
    (a.api, a.version)
  }

  // ------------------------------------------------------------ selection

  /** Position of the first entry for (service, version), as `find_if`
      reports it. */
  function FirstMatch(apis: seq<Api>, service: string, version: string): (r: Option<nat>)
    ensures r.Some? ==> r.value < |apis| && Key(apis[r.value]) == (service, version)
    ensures r.Some? ==> forall j :: 0 <= j < r.value ==> Key(apis[j]) != (service, version)
    ensures r.None? <==> forall j :: 0 <= j < |apis| ==> Key(apis[j]) != (service, version)
  {
    if |apis| == 0 then None
    else if Key(apis[0]) == (service, version) then Some(0)
    else
      match FirstMatch(apis[1..], service, version)
      case None =>
        assert forall j :: 1 <= j < |apis| ==> apis[j] == apis[1..][j - 1];
        None
      case Some(i) =>
        assert forall j :: 1 <= j < |apis| ==> apis[j] == apis[1..][j - 1];
        Some(i + 1)
  }

  /** The (service, version) pairs an answer lists. */
  function ApiKeys(apis: seq<Api>): set<(string, string)> {
    set i | 0 <= i < |apis| :: Key(apis[i])
  }

  /** The cache after `Put` of every returned entry, in answer order: it
      holds exactly the old keys and the listed ones. */
  function WriteAll(cache: ApiCache, apis: seq<Api>): (r: ApiCache)
    ensures r.Keys == cache.Keys + ApiKeys(apis)
  {
    if |apis| == 0 then cache
    else
      var init := apis[..|apis| - 1];
      var last := apis[|apis| - 1];
      assert ApiKeys(apis) == ApiKeys(init) + {Key(last)} by {
        assert forall i :: 0 <= i < |init| ==> init[i] == apis[i];
      }
      WriteAll(cache, init)[Key(last) := last.baseUrl]
  }

  /** A later entry overwrites an earlier one: the cache holds the URL of the
      last entry listed for a pair. */
  lemma {:induction false} WriteAllLastWins(cache: ApiCache, apis: seq<Api>, i: nat)
    requires i < |apis|
    requires forall j :: i < j < |apis| ==> Key(apis[j]) != Key(apis[i])
    ensures WriteAll(cache, apis)[Key(apis[i])] == apis[i].baseUrl
  {
    var init := apis[..|apis| - 1];
    if i < |apis| - 1 {
      assert forall j :: 0 <= j < |init| ==> init[j] == apis[j];
      WriteAllLastWins(cache, init, i);
    }
  }

  /** Pairs the answer does not list keep their cached URL. */
  lemma {:induction false} WriteAllKeepsOthers(cache: ApiCache, apis: seq<Api>, k: (string, string))
    requires k in cache && k !in ApiKeys(apis)
    ensures WriteAll(cache, apis)[k] == cache[k]
  {
    if |apis| > 0 {
      var init := apis[..|apis| - 1];
      assert forall j :: 0 <= j < |init| ==> init[j] == apis[j];
      assert Key(apis[|apis| - 1]) in ApiKeys(apis);
      WriteAllKeepsOthers(cache, init, k);
    }
  }

  // --------------------------------------------------------------- lookup

  /** The part of `LookupApi` after the cache was skipped or missed: the
      request to the partition's lookup service and what follows from its
      answer. */
  function LookupOnline(service: string, version: string, options: FetchOptions, partition: string,
                        cache: ApiCache, network: Request -> Result<seq<Api>, ApiError>): (o: Outcome)
    ensures o.request == Some(Request(EndpointFor(service), DatastoreServerUrl(partition)))
    ensures o.locked <==> TakesLock(options)
    ensures network(o.request.value).Failure? ==> o.result == Failure(network(o.request.value).error) && o.cache == cache
    ensures network(o.request.value).Success? ==>
              var apis := network(o.request.value).value;
              && (UsesCache(options) ==> o.cache == WriteAll(cache, apis))
              && (!UsesCache(options) ==> o.cache == cache)
              && (o.result.Success? <==> exists i :: 0 <= i < |apis| && Key(apis[i]) == (service, version))
              && (o.result.Success? ==> exists i :: 0 <= i < |apis| && Key(apis[i]) == (service, version) &&
                                          o.result.value == apis[i].baseUrl &&
                                          forall j :: 0 <= j < i ==> Key(apis[j]) != (service, version))
              && (o.result.Failure? ==> o.result.error == ApiError(ServiceUnavailable, "Service/Version not available for given HRN"))
  {
    var request := Request(EndpointFor(service), DatastoreServerUrl(partition));
    match network(request)
    case Failure(e) => Outcome(Failure(e), cache, Some(request), TakesLock(options))
    case Success(apis) =>
      var written := if UsesCache(options) then WriteAll(cache, apis) else cache;
      match FirstMatch(apis, service, version)
      case None =>
        Outcome(Failure(ApiError(ServiceUnavailable, "Service/Version not available for given HRN")),
                written, Some(request), TakesLock(options))
      case Some(i) => Outcome(Success(apis[i].baseUrl), written, Some(request), TakesLock(options))
  }

  /** `LookupApi` for one catalog: a cached URL is served without a request
      when the options read the cache; a `CacheOnly` miss is `NotFound`; in
      every other case the lookup service is asked. */
  function LookupApi(service: string, version: string, options: FetchOptions, partition: string,
                     cache: ApiCache, network: Request -> Result<seq<Api>, ApiError>): (o: Outcome)
    ensures o.locked <==> TakesLock(options)
    ensures o.request.None? <==> UsesCache(options) && ((service, version) in cache || options == CacheOnly)
    ensures o.request.None? ==> o.cache == cache
    ensures UsesCache(options) && (service, version) in cache ==> o.result == Success(cache[(service, version)])
    ensures options == CacheOnly && (service, version) !in cache ==>
              o.result == Failure(ApiError(NotFound, "CacheOnly: resource not found in cache"))
    ensures o.request.Some? ==> o == LookupOnline(service, version, options, partition, cache, network)
  {
    if UsesCache(options) && (service, version) in cache then
      Outcome(Success(cache[(service, version)]), cache, None, TakesLock(options))
    else if options == CacheOnly then
      Outcome(Failure(ApiError(NotFound, "CacheOnly: resource not found in cache")), cache, None, TakesLock(options))
    else
      LookupOnline(service, version, options, partition, cache, network)
  }

  // ------------------------------------------------------------ properties

  /** The cache never loses an entry, and a cache that is not read is never
      written. */
  lemma LookupOnlyAddsToCache(service: string, version: string, options: FetchOptions, partition: string,
                              cache: ApiCache, network: Request -> Result<seq<Api>, ApiError>)
    ensures cache.Keys <= LookupApi(service, version, options, partition, cache, network).cache.Keys
    ensures !UsesCache(options) ==> LookupApi(service, version, options, partition, cache, network).cache == cache
  {
  }

  /** What a cache-reading lookup learned online is served from the cache
      next time, without a request: when the answer lists the service once,
      a following `CacheOnly` lookup returns the same URL. */
  lemma {:induction false} SecondLookupServedFromCache(service: string, version: string, options: FetchOptions,
                                                      partition: string, cache: ApiCache,
                                                      network: Request -> Result<seq<Api>, ApiError>,
                                                      later: Request -> Result<seq<Api>, ApiError>)
    requires UsesCache(options)
    requires LookupApi(service, version, options, partition, cache, network).request.Some?
    requires LookupApi(service, version, options, partition, cache, network).result.Success?
    requires var apis := network(Request(EndpointFor(service), DatastoreServerUrl(partition))).value;
             forall i, j :: 0 <= i < j < |apis| && Key(apis[i]) == (service, version) ==> Key(apis[j]) != Key(apis[i])
    ensures var first := LookupApi(service, version, options, partition, cache, network);
            var second := LookupApi(service, version, CacheOnly, partition, first.cache, later);
            second.request.None? && second.result == first.result && second.cache == first.cache
  {
    var first := LookupApi(service, version, options, partition, cache, network);
    var apis := network(Request(EndpointFor(service), DatastoreServerUrl(partition))).value;
    var i :| 0 <= i < |apis| && Key(apis[i]) == (service, version) && first.result.value == apis[i].baseUrl &&
             forall j :: 0 <= j < i ==> Key(apis[j]) != (service, version);
    WriteAllLastWins(cache, apis, i);
  }

  /** An answer that lists the requested service twice is served from its
      first entry but cached from its last: the next cache-served lookup
      returns a different URL. */
  lemma DuplicateEntriesServeFirstCacheLast(network: Request -> Result<seq<Api>, ApiError>, later: Request -> Result<seq<Api>, ApiError>)
    requires network(Request(ResourcesApi, DatastoreServerUrl("here"))) ==
               Success([Api("blob", "v1", "https://a"), Api("blob", "v1", "https://b")])
    ensures LookupApi("blob", "v1", OnlineIfNotFound, "here", map[], network).result == Success("https://a")
    ensures var c := LookupApi("blob", "v1", OnlineIfNotFound, "here", map[], network).cache;
            LookupApi("blob", "v1", CacheOnly, "here", c, later).result == Success("https://b")
  {
    var apis := [Api("blob", "v1", "https://a"), Api("blob", "v1", "https://b")];
    assert Key(apis[0]) == ("blob", "v1");
    assert EndpointFor("blob") == ResourcesApi;
    WriteAllLastWins(map[], apis, 1);
  }
}
