/** `QuadTreeIndex`: an immutable buffer mapping the tiles of a subtree (and
    the ancestors of its root) to their data handle and catalog version.
    `CreateBlob` lays out entry lists; `Find` answers a tile lookup from the
    buffer alone. */
module QuadIndex {
  import opened Wrappers
  import opened Bytes
  import opened ClientErrors
  import opened TileKeys
  import opened QuadLayout
  import opened Sorting

  type U64 = v: nat | v < 0x1_0000_0000_0000_0000

  /** One tile of the index (`IndexData`), ordered by tile key alone. */
  datatype IndexData = IndexData(tileKey: TileKey, dataHandle: string, version: U64)

  /** The index owns an optional buffer; the default index has none. */
  datatype QuadTreeIndex = QuadTreeIndex(data: Option<seq<Byte>>)

  /** The default-constructed index. */
  function Default(): (index: QuadTreeIndex)
    ensures IsNull(index)
  {
    QuadTreeIndex(None)
  }

  /** An index over an existing buffer (`QuadTreeIndex(BlobDataPtr)`). */
  function FromBlob(blob: seq<Byte>): (index: QuadTreeIndex)
    ensures !IsNull(index) && index.data == Some(blob)
  {
    QuadTreeIndex(Some(blob))
  }

  predicate IsNull(index: QuadTreeIndex) {
    index.data.None?
  }

  // ----------------------------------------------------------- data handles

  /** A handle can be stored when every character is a non-NUL byte. */
  predicate EncodableHandle(h: string) {
    forall i :: 0 <= i < |h| ==> 0 < h[i] as int < 256
  }

  function HandleBytes(h: string): (b: seq<Byte>)
    requires EncodableHandle(h)
    ensures |b| == |h| && NoNul(b)
  {
    seq(|h|, i requires 0 <= i < |h| => h[i] as int as Byte)
  }

  function BytesToHandle(b: seq<Byte>): (h: string)
    ensures |h| == |b|
  {
    seq(|b|, i requires 0 <= i < |b| => b[i] as char)
  }

  lemma HandleRoundTrip(h: string)
    requires EncodableHandle(h)
    ensures BytesToHandle(HandleBytes(h)) == h
  {
  }

  // ------------------------------------------------------------- entry keys

  /** Sub entries are keyed by the tile's path below the root. */
  function SubKeyOf(root: TileKey): IndexData -> nat {
    (e: IndexData) => SubKey(root, e.tileKey)
  }

  /** Parent entries are keyed by the absolute quad key. */
  function QuadKeyOf(): IndexData -> nat {
    (e: IndexData) => QuadKey(e.tileKey)
  }

  function SubKeys(subs: seq<SubEntry>): (keys: seq<nat>)
    ensures |keys| == |subs| && forall i :: 0 <= i < |subs| ==> keys[i] == subs[i].subQuadkey
  {
    seq(|subs|, i requires 0 <= i < |subs| => subs[i].subQuadkey)
  }

  function ParentKeys(parents: seq<ParentEntry>): (keys: seq<nat>)
    ensures |keys| == |parents| && forall i :: 0 <= i < |parents| ==> keys[i] == parents[i].key
  {
    seq(|parents|, i requires 0 <= i < |parents| => parents[i].key)
  }

  predicate StrictlyIncreasing(keys: seq<nat>) {
    forall i, j :: 0 <= i < j < |keys| ==> keys[i] < keys[j]
  }

  /** First position of `k` in `keys`. */
  function IndexOf(keys: seq<nat>, k: nat): (r: Option<nat>)
    ensures r.Some? ==> r.value < |keys| && keys[r.value] == k
    ensures r.Some? ==> forall j :: 0 <= j < r.value ==> keys[j] != k
    ensures r.None? ==> forall j :: 0 <= j < |keys| ==> keys[j] != k
  {
    if |keys| == 0 then None
    else if keys[0] == k then Some(0)
    else match IndexOf(keys[1..], k)
      case None => None
      case Some(i) => Some(i + 1)
  }

  /** `std::lower_bound` over a sorted key array, as the reader searches
      the entry arrays. */
  method LowerBound(keys: seq<nat>, k: nat) returns (r: Option<nat>)
    requires StrictlyIncreasing(keys)
    ensures r == IndexOf(keys, k)
  {
    var lo, hi := 0, |keys|;
    while lo < hi
      invariant 0 <= lo <= hi <= |keys|
      invariant forall i :: 0 <= i < lo ==> keys[i] < k
      invariant forall i :: hi <= i < |keys| ==> keys[i] >= k
      decreases hi - lo
    {
      var mid := (lo + hi) / 2;
      if keys[mid] < k {
        lo := mid + 1;
      } else {
        hi := mid;
      }
    }
    if lo < |keys| && keys[lo] == k {
      r := Some(lo);
    } else {
      r := None;
    }
  }

  // ------------------------------------------------------------------ lookup

  /** The entry a parsed tag record describes for tile `t`. */
  function ToIndexData(t: TileKey, tag: Option<AdditionalData>): Option<IndexData> {
    match tag
    case None => None
    case Some(a) =>
      if a.version < U64Limit then Some(IndexData(t, BytesToHandle(a.dataHandle), a.version)) else None
  }

  /** `t` is the root or one of its descendants at most `depth` levels down. */
  predicate InSubtree(root: TileKey, depth: nat, t: TileKey) {
    IsAncestorOrSelf(root, t) && t.level - root.level <= depth
  }

  /** `t` is a proper ancestor of the root. */
  predicate AboveRoot(root: TileKey, t: TileKey) {
    IsAncestorOrSelf(t, root) && t.level < root.level
  }

  function FindIn(l: Layout, t: TileKey): Option<IndexData> {
    if l.header.rootTilekey == 0 then None
    else
      var root := FromQuadKey(l.header.rootTilekey);
      if InSubtree(root, l.header.depth, t) then
        match IndexOf(SubKeys(l.subs), SubKey(root, t))
        case None => None
        case Some(i) => ToIndexData(t, ParseTag(l.tagData, l.subs[i].tagOffset))
      else if AboveRoot(root, t) then
        match IndexOf(ParentKeys(l.parents), QuadKey(t))
        case None => None
        case Some(i) => ToIndexData(t, ParseTag(l.tagData, l.parents[i].tagOffset))
      else None
  }

  /** The entry for `t`, or `None`: a missing tile is an empty answer, never an
      error. A descendant of the root is looked up among the sub entries, an
      ancestor among the parent entries; any other tile is not covered. */
  function Find(index: QuadTreeIndex, t: TileKey): (r: Option<IndexData>)
    ensures IsNull(index) ==> r.None?
    ensures r.Some? ==> r.value.tileKey == t
  {
    if index.data.None? then None
    else
      match Parse(index.data.value)
      case None => None
      case Some(l) => FindIn(l, t)
  }

  /** Handle of the tag record at `offset`, when one parses there. */
  function TagHandle(tags: seq<Byte>, offset: nat): Option<string> {
    match ParseTag(tags, offset)
    case None => None
    case Some(a) => Some(BytesToHandle(a.dataHandle))
  }

  /** The data handles of every entry the buffer stores, sub entries and parent
      entries alike (what `GetIndexData` lists). */
  function Handles(index: QuadTreeIndex): set<string> {
    if index.data.None? then {}
    else
      match Parse(index.data.value)
      case None => {}
      case Some(l) =>
        (set i | 0 <= i < |l.subs| && TagHandle(l.tagData, l.subs[i].tagOffset).Some?
           :: TagHandle(l.tagData, l.subs[i].tagOffset).value)
        + (set i | 0 <= i < |l.parents| && TagHandle(l.tagData, l.parents[i].tagOffset).Some?
             :: TagHandle(l.tagData, l.parents[i].tagOffset).value)
  }

  /** Whatever `Find` returns is one of the listed entries. */
  lemma FoundHandleListed(index: QuadTreeIndex, t: TileKey)
    requires Find(index, t).Some?
    ensures Find(index, t).value.dataHandle in Handles(index)
  {
    var l := Parse(index.data.value).value;
    var root := FromQuadKey(l.header.rootTilekey);
    var h := Find(index, t).value.dataHandle;
    if InSubtree(root, l.header.depth, t) {
      var i := IndexOf(SubKeys(l.subs), SubKey(root, t)).value;
      assert TagHandle(l.tagData, l.subs[i].tagOffset) == Some(h);
      assert TagHandle(l.tagData, l.subs[i].tagOffset).value in Handles(index);
    } else {
      var i := IndexOf(ParentKeys(l.parents), QuadKey(t)).value;
      assert TagHandle(l.tagData, l.parents[i].tagOffset) == Some(h);
      assert TagHandle(l.tagData, l.parents[i].tagOffset).value in Handles(index);
    }
  }

  /** Header root of a buffer. */
  function RootOf(blob: seq<Byte>): Option<TileKey> {
    if RegionsFit(blob) && ReadHeader(blob).rootTilekey >= 1
    then Some(FromQuadKey(ReadHeader(blob).rootTilekey)) else None
  }

  /** Outside the root's subtree (down to its depth) and off the path above the
      root, `Find` is empty whatever the buffer holds. */
  lemma FindOutsideCoverageIsEmpty(blob: seq<Byte>, t: TileKey)
    requires RootOf(blob).Some?
    requires !InSubtree(RootOf(blob).value, ReadHeader(blob).depth, t)
    requires !AboveRoot(RootOf(blob).value, t)
    ensures Find(FromBlob(blob), t).None?
  {
  }

  // ---------------------------------------------------------------- decoding

  /** What a buffer must satisfy to be read safely. */
  datatype DecodeError = Truncated | NoRoot | UnsortedEntries | TagOutOfRange

  predicate TagsInRange(l: Layout) {
    && (forall i :: 0 <= i < |l.subs| ==> ParseTag(l.tagData, l.subs[i].tagOffset).Some?)
    && (forall i :: 0 <= i < |l.parents| ==> ParseTag(l.tagData, l.parents[i].tagOffset).Some?)
  }

  predicate WellFormed(blob: seq<Byte>) {
    && RegionsFit(blob)
    && Parse(blob).value.header.rootTilekey >= 1
    && StrictlyIncreasing(SubKeys(Parse(blob).value.subs))
    && StrictlyIncreasing(ParentKeys(Parse(blob).value.parents))
    && TagsInRange(Parse(blob).value)
  }

  /** Validates a buffer: the header and declared arrays fit, both arrays are
      sorted for binary search, and every tag offset points at a complete
      record inside the tag data region. */
  function Decode(blob: seq<Byte>): (r: Result<QuadTreeIndex, DecodeError>)
    ensures r.Success? <==> WellFormed(blob)
    ensures r.Success? ==> r.value == FromBlob(blob)
    ensures r.Failure? && r.error == Truncated <==> !RegionsFit(blob)
  {
    if !RegionsFit(blob) then Failure(Truncated)
    else
      var l := Parse(blob).value;
      if l.header.rootTilekey == 0 then Failure(NoRoot)
      else if !StrictlyIncreasing(SubKeys(l.subs)) || !StrictlyIncreasing(ParentKeys(l.parents))
      then Failure(UnsortedEntries)
      else if !TagsInRange(l) then Failure(TagOutOfRange)
      else Success(FromBlob(blob))
  }

  /** The reader's lookup with binary search over the entry arrays. */
  method FindBinary(index: QuadTreeIndex, t: TileKey) returns (r: Option<IndexData>)
    requires index.data.Some? && WellFormed(index.data.value)
    ensures r == Find(index, t)
  {
    var l := Parse(index.data.value).value;
    var root := FromQuadKey(l.header.rootTilekey);
    if InSubtree(root, l.header.depth, t) {
      var i := LowerBound(SubKeys(l.subs), SubKey(root, t));
      if i.Some? {
        r := ToIndexData(t, ParseTag(l.tagData, l.subs[i.value].tagOffset));
      } else {
        r := None;
      }
    } else if AboveRoot(root, t) {
      var i := LowerBound(ParentKeys(l.parents), QuadKey(t));
      if i.Some? {
        r := ToIndexData(t, ParseTag(l.tagData, l.parents[i.value].tagOffset));
      } else {
        r := None;
      }
    } else {
      r := None;
    }
  }

  // ---------------------------------------------------------------- encoding

  predicate AllEncodable(es: seq<IndexData>) {
    forall i :: 0 <= i < |es| ==> EncodableHandle(es[i].dataHandle)
  }

  function TagFor(e: IndexData): (a: AdditionalData)
    requires EncodableHandle(e.dataHandle)
    ensures a.version < U64Limit && NoNul(a.dataHandle)
  {
    AdditionalData(e.version, HandleBytes(e.dataHandle))
  }

  function Record(e: IndexData): seq<Byte>
    requires EncodableHandle(e.dataHandle)
  {
    EncodeTag(TagFor(e))
  }

  /** The tag records of `es`, back to back. */
  function Records(es: seq<IndexData>): seq<Byte>
    requires AllEncodable(es)
  {
    if |es| == 0 then [] else Record(es[0]) + Records(es[1..])
  }

  /** Offset of the i-th record in `Records(es)`. */
  function RecordOffset(es: seq<IndexData>, i: nat): nat
    requires AllEncodable(es) && i <= |es|
  {
    if i == 0 then 0 else RecordOffset(es, i - 1) + |Record(es[i - 1])|
  }

  /** The sub entries followed by the parent entries: the order in which
      their records are written. */
  function Joined(ss: seq<IndexData>, ps: seq<IndexData>): (r: seq<IndexData>)
    ensures |r| == |ss| + |ps|
  {
    if |ss| == 0 then ps else [ss[0]] + Joined(ss[1..], ps)
  }

  lemma {:induction false} JoinedIsConcat(ss: seq<IndexData>, ps: seq<IndexData>)
    ensures Joined(ss, ps) == ss + ps
  {
    if |ss| > 0 {
      JoinedIsConcat(ss[1..], ps);
      AppendAssoc([ss[0]], ss[1..], ps);
      assert [ss[0]] + ss[1..] == ss;
    }
  }

  /** The sub entries come first, the parent entries after them. */
  lemma JoinedAt(ss: seq<IndexData>, ps: seq<IndexData>)
    ensures forall i :: 0 <= i < |ss| ==> Joined(ss, ps)[i] == ss[i]
    ensures forall i :: 0 <= i < |ps| ==> Joined(ss, ps)[|ss| + i] == ps[i]
  {
    JoinedIsConcat(ss, ps);
    ConcatAt(ss, ps, Joined(ss, ps));
  }

  lemma AllEncodableJoin(ss: seq<IndexData>, ps: seq<IndexData>)
    requires AllEncodable(ss) && AllEncodable(ps)
    ensures AllEncodable(Joined(ss, ps))
  {
    JoinedAt(ss, ps);
    var r := Joined(ss, ps);
    forall k | 0 <= k < |r|
      ensures EncodableHandle(r[k].dataHandle)
    {
      if k >= |ss| {
        assert r[|ss| + (k - |ss|)] == ps[k - |ss|];
      }
    }
  }

  /** Sub entries point at the first `|ss|` records of `all`. */
  function SubEntries(root: TileKey, ss: seq<IndexData>, all: seq<IndexData>): (r: seq<SubEntry>)
    requires AllEncodable(all) && |ss| <= |all|
    ensures |r| == |ss|
  {
    seq(|ss|, i requires 0 <= i < |ss| => SubEntry(SubKey(root, ss[i].tileKey), RecordOffset(all, i)))
  }

  /** Parent entries point at the records of `all` from position `base` on. */
  function ParentEntries(ps: seq<IndexData>, all: seq<IndexData>, base: nat): (r: seq<ParentEntry>)
    requires AllEncodable(all) && base + |ps| <= |all|
    ensures |r| == |ps|
  {
    seq(|ps|, i requires 0 <= i < |ps| => ParentEntry(QuadKey(ps[i].tileKey), RecordOffset(all, base + i)))
  }

  /** The layout for already sorted entry lists: sub records first, then
      parent records, each entry pointing at its own record. */
  function BuildLayout(root: TileKey, depth: nat, ss: seq<IndexData>, ps: seq<IndexData>): Layout
    requires AllEncodable(ss) && AllEncodable(ps)
  {
    AllEncodableJoin(ss, ps);
    Layout(DataHeader(QuadKey(root), depth, |ps|, |ss|),
           SubEntries(root, ss, Joined(ss, ps)), ParentEntries(ps, Joined(ss, ps), |ss|),
           Records(Joined(ss, ps)))
  }

  /** Everything `CreateBlob` needs of its arguments before sorting. */
  predicate ArgumentsFit(root: TileKey, depth: nat, parents: seq<IndexData>, subs: seq<IndexData>) {
    && Valid(root)
    && QuadKey(root) < U64Limit
    && depth < U8Limit
    && |subs| < U16Limit
    && |parents| < U8Limit
    && (forall i :: 0 <= i < |subs| ==> InSubtree(root, depth, subs[i].tileKey))
    && (forall i :: 0 <= i < |parents| ==> AboveRoot(root, parents[i].tileKey))
    && AllEncodable(subs) && AllEncodable(parents)
  }

  /** What the sorted lists must satisfy: no tile twice, and every key and
      offset within the width of its field. */
  predicate SortedFit(root: TileKey, ss: seq<IndexData>, ps: seq<IndexData>)
    requires AllEncodable(ss) && AllEncodable(ps)
  {
    AllEncodableJoin(ss, ps);
    && AdjacentIncreasing(ss, SubKeyOf(root))
    && AdjacentIncreasing(ps, QuadKeyOf())
    && (forall i :: 0 <= i < |ss| ==> SubKey(root, ss[i].tileKey) < U16Limit)
    && (forall i :: 0 <= i < |ss| ==> RecordOffset(Joined(ss, ps), i) < U16Limit)
    && (forall k :: |ss| <= k < |ss| + |ps| ==> RecordOffset(Joined(ss, ps), k) < U32Limit)
  }

  /** Sorting keeps every property each entry had. */
  lemma SortKeepsAll(es: seq<IndexData>, key: IndexData -> nat, p: IndexData -> bool)
    requires forall i :: 0 <= i < |es| ==> p(es[i])
    ensures forall i :: 0 <= i < |SortBy(es, key)| ==> p(SortBy(es, key)[i])
  {
    var s := SortBy(es, key);
    forall i | 0 <= i < |s|
      ensures p(s[i])
    {
      assert s[i] in multiset(es);
      var j :| 0 <= j < |es| && es[j] == s[i];
    }
  }

  lemma AllEncodableSorted(es: seq<IndexData>, key: IndexData -> nat)
    requires AllEncodable(es)
    ensures AllEncodable(SortBy(es, key))
  {
    SortKeepsAll(es, key, (e: IndexData) => EncodableHandle(e.dataHandle));
  }

  /** Exactly the inputs `CreateBlob` accepts: the arguments fit, and once
      sorted the lists fit their fields with no tile twice. */
  predicate CreateFits(root: TileKey, depth: nat, parents: seq<IndexData>, subs: seq<IndexData>) {
    && ArgumentsFit(root, depth, parents, subs)
    && (AllEncodableSorted(subs, SubKeyOf(root));
        AllEncodableSorted(parents, QuadKeyOf());
        SortedFit(root, SortBy(subs, SubKeyOf(root)), SortBy(parents, QuadKeyOf())))
  }

  /** Lays out an index for `root` and `depth` from its entry lists. Fails with
      `InvalidArgument` when an entry is outside the index's coverage, a tile
      repeats, a handle cannot be stored, or a count, key or offset overflows
      the width of its field. */
  function CreateBlob(root: TileKey, depth: nat, parents: seq<IndexData>, subs: seq<IndexData>): (r: Result<seq<Byte>, ApiError>)
    ensures r.Failure? ==> r.error.code == InvalidArgument
    ensures r.Success? <==> CreateFits(root, depth, parents, subs)
    ensures r.Success? ==> ArgumentsFit(root, depth, parents, subs)
    ensures r.Success? ==> |parents| < U8Limit && |subs| < U16Limit
    ensures r.Success? ==> |r.value| >= HeaderSize + SubEntrySize * |subs| + ParentEntrySize * |parents|
  {
    if !ArgumentsFit(root, depth, parents, subs) then
      Failure(ApiError(InvalidArgument, "Entries do not fit the quad tree index"))
    else
      AllEncodableSorted(subs, SubKeyOf(root));
      AllEncodableSorted(parents, QuadKeyOf());
      var ss := SortBy(subs, SubKeyOf(root));
      var ps := SortBy(parents, QuadKeyOf());
      if !SortedFit(root, ss, ps) then
        Failure(ApiError(InvalidArgument, "Entries do not fit the quad tree index"))
      else
        SortKeepsAll(parents, QuadKeyOf(), (e: IndexData) => AboveRoot(root, e.tileKey));
        BuildLayoutRepresentable(root, depth, ss, ps);
        var l := BuildLayout(root, depth, ss, ps);
        Success(Serialize(l))
  }

  /** An index with no entries can always be created for a valid root whose
      key and depth fit their fields. */
  lemma CreateBlobEmpty(root: TileKey, depth: nat)
    requires Valid(root) && QuadKey(root) < U64Limit && depth < U8Limit
    ensures CreateBlob(root, depth, [], []).Success?
  {
    assert SortBy([], SubKeyOf(root)) == [];
    assert SortBy([], QuadKeyOf()) == [];
  }

  lemma BuildLayoutRepresentable(root: TileKey, depth: nat, ss: seq<IndexData>, ps: seq<IndexData>)
    requires QuadKey(root) < U64Limit && depth < U8Limit && |ss| < U16Limit && |ps| < U8Limit
    requires forall i :: 0 <= i < |ps| ==> AboveRoot(root, ps[i].tileKey)
    requires AllEncodable(ss) && AllEncodable(ps) && SortedFit(root, ss, ps)
    ensures Representable(BuildLayout(root, depth, ss, ps))
  {
    var l := BuildLayout(root, depth, ss, ps);
    forall i | 0 <= i < |ps|
      ensures ParentEntryFits(l.parents[i])
    {
      AncestorQuadKeySmaller(ps[i].tileKey, root);
    }
  }

  // ------------------------------------------------------------- round trip

  lemma {:induction false} RecordsSplit(es: seq<IndexData>, i: nat)
    requires AllEncodable(es) && i <= |es|
    ensures Records(es) == Records(es[..i]) + Records(es[i..])
    decreases i
  {
    if i == 0 {
      assert es[..0] == [] && es[0..] == es;
    } else {
      var tail := es[1..];
      RecordsSplit(tail, i - 1);
      TailSlices(es, i);
      AppendAssoc(Record(es[0]), Records(tail[..i - 1]), Records(es[i..]));
    }
  }

  /** The offset of record `i` is the length of the records before it. */
  lemma {:induction false} RecordOffsetIsPrefix(es: seq<IndexData>, i: nat)
    requires AllEncodable(es) && i <= |es|
    ensures RecordOffset(es, i) == |Records(es[..i])|
    decreases i
  {
    if i > 0 {
      RecordOffsetIsPrefix(es, i - 1);
      var pre := es[..i];
      RecordsSplit(pre, i - 1);
      assert pre[..i - 1] == es[..i - 1];
      assert pre[i - 1..] == [es[i - 1]];
      assert Records([es[i - 1]]) == Record(es[i - 1]) + Records([]);
    }
  }

  /** The i-th record sits at its offset in the concatenation. */
  lemma RecordAt(es: seq<IndexData>, i: nat)
    requires AllEncodable(es) && i < |es|
    ensures RecordOffset(es, i) + |Record(es[i])| <= |Records(es)|
    ensures Records(es)[RecordOffset(es, i)..RecordOffset(es, i) + |Record(es[i])|] == Record(es[i])
  {
    RecordOffsetIsPrefix(es, i);
    RecordAfterPrefix(es, i);
  }

  /** The i-th record follows the records before it. */
  lemma RecordAfterPrefix(es: seq<IndexData>, i: nat)
    requires AllEncodable(es) && i < |es|
    ensures |Records(es[..i])| + |Record(es[i])| <= |Records(es)|
    ensures Records(es)[|Records(es[..i])|..|Records(es[..i])| + |Record(es[i])|] == Record(es[i])
  {
    RecordsSplit(es, i);
    var rest := es[i..];
    assert rest[0] == es[i];
    MiddleSlice(Records(es[..i]), Record(es[i]), Records(rest[1..]));
  }

  lemma AboveRootValid(root: TileKey, t: TileKey)
    requires Valid(root) && AboveRoot(root, t)
    ensures Valid(t)
  {
    AncestorValid(root, t.level);
  }

  /** Facts about a successfully created blob: it parses back to the layout
      built from the sorted lists, whose keys are strictly increasing. */
  lemma CreatedLayout(root: TileKey, depth: nat, parents: seq<IndexData>, subs: seq<IndexData>)
    requires CreateBlob(root, depth, parents, subs).Success?
    ensures AllEncodable(SortBy(subs, SubKeyOf(root))) && AllEncodable(SortBy(parents, QuadKeyOf()))
    ensures Parse(CreateBlob(root, depth, parents, subs).value)
         == Some(BuildLayout(root, depth, SortBy(subs, SubKeyOf(root)), SortBy(parents, QuadKeyOf())))
    ensures StrictlySortedBy(SortBy(subs, SubKeyOf(root)), SubKeyOf(root))
    ensures StrictlySortedBy(SortBy(parents, QuadKeyOf()), QuadKeyOf())
    ensures FromQuadKey(QuadKey(root)) == root
  {
    var ss, ps := SortBy(subs, SubKeyOf(root)), SortBy(parents, QuadKeyOf());
    AllEncodableSorted(subs, SubKeyOf(root));
    AllEncodableSorted(parents, QuadKeyOf());
    SortKeepsAll(parents, QuadKeyOf(), (e: IndexData) => AboveRoot(root, e.tileKey));
    BuildLayoutRepresentable(root, depth, ss, ps);
    ParseSerialize(BuildLayout(root, depth, ss, ps));
    AdjacentIncreasingIsStrict(ss, SubKeyOf(root));
    AdjacentIncreasingIsStrict(ps, QuadKeyOf());
    FromQuadKeyRoundTrip(root);
  }

  /** In strictly increasing keys, a key's first position is its only one. */
  lemma IndexOfStrict(keys: seq<nat>, j: nat)
    requires StrictlyIncreasing(keys) && j < |keys|
    ensures IndexOf(keys, keys[j]) == Some(j)
  {
  }

  lemma SubKeysStrict(root: TileKey, depth: nat, ss: seq<IndexData>, ps: seq<IndexData>)
    requires AllEncodable(ss) && AllEncodable(ps)
    requires StrictlySortedBy(ss, SubKeyOf(root))
    ensures StrictlyIncreasing(SubKeys(BuildLayout(root, depth, ss, ps).subs))
  {
    var keys := SubKeys(BuildLayout(root, depth, ss, ps).subs);
    forall i, j | 0 <= i < j < |keys|
      ensures keys[i] < keys[j]
    {
      assert SubKeyOf(root)(ss[i]) < SubKeyOf(root)(ss[j]);
    }
  }

  lemma ParentKeysStrict(root: TileKey, depth: nat, ss: seq<IndexData>, ps: seq<IndexData>)
    requires AllEncodable(ss) && AllEncodable(ps)
    requires StrictlySortedBy(ps, QuadKeyOf())
    ensures StrictlyIncreasing(ParentKeys(BuildLayout(root, depth, ss, ps).parents))
  {
    var keys := ParentKeys(BuildLayout(root, depth, ss, ps).parents);
    forall i, j | 0 <= i < j < |keys|
      ensures keys[i] < keys[j]
    {
      assert QuadKeyOf()(ps[i]) < QuadKeyOf()(ps[j]);
    }
  }

  /** Every record of `es` reads back at its own offset. */
  lemma TagAt(es: seq<IndexData>, k: nat)
    requires AllEncodable(es) && k < |es|
    ensures ParseTag(Records(es), RecordOffset(es, k)) == Some(TagFor(es[k]))
  {
    var none: seq<IndexData> := [];
    TagOfSub(es, none, k);
    AppendEmpty(Records(es), Records(none));
  }

  /** Records read back at their offsets even with more records after them. */
  lemma TagOfSub(ss: seq<IndexData>, ps: seq<IndexData>, j: nat)
    requires AllEncodable(ss) && AllEncodable(ps) && j < |ss|
    ensures ParseTag(Records(ss) + Records(ps), RecordOffset(ss, j)) == Some(TagFor(ss[j]))
  {
    RecordParsesIn(Records(ss), Records(ps), ss, j, RecordOffset(ss, j));
  }

  /** Record `j` of `ss` parses at its offset in any buffer that starts
      with the records of `ss`. */
  lemma RecordParsesIn(left: seq<Byte>, right: seq<Byte>, ss: seq<IndexData>, j: nat, off: nat)
    requires AllEncodable(ss) && j < |ss|
    requires left == Records(ss) && off == RecordOffset(ss, j)
    ensures ParseTag(left + right, off) == Some(TagFor(ss[j]))
  {
    RecordAt(ss, j);
    RecordParsesLeft(left, right, off, ss[j]);
  }

  /** An entry's record inside `left` reads back as the entry's tag, whatever
      follows `left`. */
  lemma RecordParsesLeft(left: seq<Byte>, right: seq<Byte>, p: nat, e: IndexData)
    requires EncodableHandle(e.dataHandle)
    requires p + |Record(e)| <= |left| && left[p..p + |Record(e)|] == Record(e)
    ensures ParseTag(left + right, p) == Some(TagFor(e))
  {
    ParseEncodedTagLeft(left, right, p, TagFor(e));
  }

  /** A layout whose tag region is the records of `es`, the sub entries
      pointing at the first records and the parent entries at the rest. */
  predicate RecordsLayout(l: Layout, es: seq<IndexData>) {
    && AllEncodable(es)
    && |l.subs| + |l.parents| == |es|
    && l.tagData == Records(es)
    && SubsPointAt(l.subs, es)
    && ParentsPointAt(l.parents, es, |l.subs|)
  }

  /** The sub entries point at the first records of `es`. */
  predicate SubsPointAt(subs: seq<SubEntry>, es: seq<IndexData>)
    requires AllEncodable(es) && |subs| <= |es|
  {
    forall i :: 0 <= i < |subs| ==> subs[i].tagOffset == RecordOffset(es, i)
  }

  /** The parent entries point at the records of `es` from `base` on. */
  predicate ParentsPointAt(parents: seq<ParentEntry>, es: seq<IndexData>, base: nat)
    requires AllEncodable(es) && base + |parents| <= |es|
  {
    forall i :: 0 <= i < |parents| ==> parents[i].tagOffset == RecordOffset(es, base + i)
  }

  lemma BuildLayoutRecords(root: TileKey, depth: nat, ss: seq<IndexData>, ps: seq<IndexData>)
    requires AllEncodable(ss) && AllEncodable(ps)
    ensures RecordsLayout(BuildLayout(root, depth, ss, ps), Joined(ss, ps))
  {
    var es := Joined(ss, ps);
    AllEncodableJoin(ss, ps);
    var l := BuildLayout(root, depth, ss, ps);
    RecordsLayoutOfEntries(l, es, root, ss, ps);
  }

  /** A layout whose entries are made by `SubEntries` and `ParentEntries`
      over the records of `es` is such a layout. */
  lemma RecordsLayoutOfEntries(l: Layout, es: seq<IndexData>, root: TileKey, ss: seq<IndexData>, ps: seq<IndexData>)
    requires AllEncodable(es) && |ss| + |ps| == |es|
    requires l.subs == SubEntries(root, ss, es) && l.parents == ParentEntries(ps, es, |ss|)
    requires l.tagData == Records(es)
    ensures RecordsLayout(l, es)
  {
    SubsPointAtRecords(l.subs, root, ss, es);
    assert |l.subs| == |ss|;
    ParentsPointAtRecords(l.parents, ps, es, |l.subs|);
  }

  /** Sub entries made by `SubEntries` point at the first records. */
  lemma SubsPointAtRecords(subs: seq<SubEntry>, root: TileKey, ss: seq<IndexData>, es: seq<IndexData>)
    requires AllEncodable(es) && |ss| <= |es| && subs == SubEntries(root, ss, es)
    ensures SubsPointAt(subs, es)
  {
    forall i | 0 <= i < |subs|
      ensures subs[i].tagOffset == RecordOffset(es, i)
    {
      SubEntryOffset(root, ss, es, i);
    }
  }

  /** Parent entries made by `ParentEntries` point at the records from
      `base` on. */
  lemma ParentsPointAtRecords(parents: seq<ParentEntry>, ps: seq<IndexData>, es: seq<IndexData>, base: nat)
    requires AllEncodable(es) && base + |ps| <= |es| && parents == ParentEntries(ps, es, base)
    ensures ParentsPointAt(parents, es, base)
  {
    forall i | 0 <= i < |parents|
      ensures parents[i].tagOffset == RecordOffset(es, base + i)
    {
      ParentEntryOffset(ps, es, base, i);
    }
  }

  lemma SubEntryOffset(root: TileKey, ss: seq<IndexData>, all: seq<IndexData>, i: nat)
    requires AllEncodable(all) && |ss| <= |all| && i < |ss|
    ensures SubEntries(root, ss, all)[i].tagOffset == RecordOffset(all, i)
  {
  }

  lemma ParentEntryOffset(ps: seq<IndexData>, all: seq<IndexData>, base: nat, i: nat)
    requires AllEncodable(all) && base + |ps| <= |all| && i < |ps|
    ensures ParentEntries(ps, all, base)[i].tagOffset == RecordOffset(all, base + i)
  {
  }

  /** A buffer and offset known to be the records of `es` and the offset of
      record `k` read back that record. */
  lemma TagAtOffset(es: seq<IndexData>, k: nat, buf: seq<Byte>, offset: nat)
    requires AllEncodable(es) && k < |es|
    requires buf == Records(es) && offset == RecordOffset(es, k)
    ensures ParseTag(buf, offset) == Some(TagFor(es[k]))
  {
    TagAt(es, k);
  }

  /** The `i`-th sub entry of such a layout points at record `i`. */
  lemma TagOfRecordsSub(l: Layout, es: seq<IndexData>, i: nat)
    requires RecordsLayout(l, es) && i < |l.subs|
    ensures ParseTag(l.tagData, l.subs[i].tagOffset) == Some(TagFor(es[i]))
  {
    TagAtOffset(es, i, l.tagData, l.subs[i].tagOffset);
  }

  /** The `i`-th parent entry of such a layout points at the record after
      the sub entries' ones. */
  lemma TagOfRecordsParent(l: Layout, es: seq<IndexData>, i: nat)
    requires RecordsLayout(l, es) && i < |l.parents|
    ensures ParseTag(l.tagData, l.parents[i].tagOffset) == Some(TagFor(es[|l.subs| + i]))
  {
    TagAtOffset(es, |l.subs| + i, l.tagData, l.parents[i].tagOffset);
  }

  /** Each entry of such a layout points at its own record. */
  lemma TagsOfRecordsLayout(l: Layout, es: seq<IndexData>)
    requires RecordsLayout(l, es)
    ensures forall i :: 0 <= i < |l.subs| ==> ParseTag(l.tagData, l.subs[i].tagOffset) == Some(TagFor(es[i]))
    ensures forall i :: 0 <= i < |l.parents| ==>
      ParseTag(l.tagData, l.parents[i].tagOffset) == Some(TagFor(es[|l.subs| + i]))
  {
    forall i | 0 <= i < |l.subs|
      ensures ParseTag(l.tagData, l.subs[i].tagOffset) == Some(TagFor(es[i]))
    {
      TagOfRecordsSub(l, es, i);
    }
    forall i | 0 <= i < |l.parents|
      ensures ParseTag(l.tagData, l.parents[i].tagOffset) == Some(TagFor(es[|l.subs| + i]))
    {
      TagOfRecordsParent(l, es, i);
    }
  }

  /** The sub and parent entries of a built layout read back their records. */
  lemma TagsOfBuiltLayout(root: TileKey, depth: nat, ss: seq<IndexData>, ps: seq<IndexData>)
    requires AllEncodable(ss) && AllEncodable(ps)
    ensures forall i :: 0 <= i < |ss| ==>
      ParseTag(BuildLayout(root, depth, ss, ps).tagData, BuildLayout(root, depth, ss, ps).subs[i].tagOffset) == Some(TagFor(ss[i]))
    ensures forall i :: 0 <= i < |ps| ==>
      ParseTag(BuildLayout(root, depth, ss, ps).tagData, BuildLayout(root, depth, ss, ps).parents[i].tagOffset) == Some(TagFor(ps[i]))
  {
    var l := BuildLayout(root, depth, ss, ps);
    BuildLayoutRecords(root, depth, ss, ps);
    TagsOfJoinedLayout(l, Joined(ss, ps), ss, ps);
  }

  /** In such a layout over the joined lists, the sub entries read back the
      sub records and the parent entries the parent records. */
  lemma TagsOfJoinedLayout(l: Layout, es: seq<IndexData>, ss: seq<IndexData>, ps: seq<IndexData>)
    requires AllEncodable(ss) && AllEncodable(ps)
    requires RecordsLayout(l, es) && es == Joined(ss, ps) && |l.subs| == |ss|
    ensures forall i :: 0 <= i < |ss| ==> ParseTag(l.tagData, l.subs[i].tagOffset) == Some(TagFor(ss[i]))
    ensures forall i :: 0 <= i < |ps| ==> ParseTag(l.tagData, l.parents[i].tagOffset) == Some(TagFor(ps[i]))
  {
    JoinedAt(ss, ps);
    forall i | 0 <= i < |ss|
      ensures ParseTag(l.tagData, l.subs[i].tagOffset) == Some(TagFor(ss[i]))
    {
      assert es[i] == ss[i];
      TagOfRecordsSub(l, es, i);
    }
    forall i | 0 <= i < |ps|
      ensures ParseTag(l.tagData, l.parents[i].tagOffset) == Some(TagFor(ps[i]))
    {
      assert es[|l.subs| + i] == ps[i];
      TagOfRecordsParent(l, es, i);
    }
  }

  /** In a layout built from strictly sorted lists, a sub entry is found at
      its own position and its record reads back as the entry. */
  lemma FindSubInLayout(root: TileKey, depth: nat, ss: seq<IndexData>, ps: seq<IndexData>, j: nat)
    requires AllEncodable(ss) && AllEncodable(ps)
    requires QuadKey(root) >= 1 && FromQuadKey(QuadKey(root)) == root
    requires StrictlySortedBy(ss, SubKeyOf(root))
    requires j < |ss| && InSubtree(root, depth, ss[j].tileKey)
    ensures FindIn(BuildLayout(root, depth, ss, ps), ss[j].tileKey) == Some(ss[j])
  {
    var l := BuildLayout(root, depth, ss, ps);
    SubKeysStrict(root, depth, ss, ps);
    IndexOfStrict(SubKeys(l.subs), j);
    TagsOfBuiltLayout(root, depth, ss, ps);
    HandleRoundTrip(ss[j].dataHandle);
  }

  /** Likewise for a parent entry, whose record follows all sub records. */
  lemma FindParentInLayout(root: TileKey, depth: nat, ss: seq<IndexData>, ps: seq<IndexData>, j: nat)
    requires AllEncodable(ss) && AllEncodable(ps)
    requires QuadKey(root) >= 1 && FromQuadKey(QuadKey(root)) == root
    requires StrictlySortedBy(ps, QuadKeyOf())
    requires j < |ps| && AboveRoot(root, ps[j].tileKey)
    ensures FindIn(BuildLayout(root, depth, ss, ps), ps[j].tileKey) == Some(ps[j])
  {
    var l := BuildLayout(root, depth, ss, ps);
    var t := ps[j].tileKey;
    assert !InSubtree(root, depth, t);
    ParentKeysStrict(root, depth, ss, ps);
    IndexOfStrict(ParentKeys(l.parents), j);
    assert IndexOf(ParentKeys(l.parents), QuadKey(t)) == Some(j);
    TagsOfBuiltLayout(root, depth, ss, ps);
    HandleRoundTrip(ps[j].dataHandle);
    assert ToIndexData(t, Some(TagFor(ps[j]))) == Some(ps[j]);
  }

  /** Every sub entry given to `CreateBlob` is found again, with its handle
      and version. */
  lemma FindSubAfterCreateBlob(root: TileKey, depth: nat, parents: seq<IndexData>, subs: seq<IndexData>, e: IndexData)
    requires CreateBlob(root, depth, parents, subs).Success?
    requires e in subs
    ensures Find(FromBlob(CreateBlob(root, depth, parents, subs).value), e.tileKey) == Some(e)
  {
    CreatedLayout(root, depth, parents, subs);
    var ss, ps := SortBy(subs, SubKeyOf(root)), SortBy(parents, QuadKeyOf());
    var j0 :| 0 <= j0 < |subs| && subs[j0] == e;
    assert e in multiset(ss);
    var j :| 0 <= j < |ss| && ss[j] == e;
    FindSubInLayout(root, depth, ss, ps, j);
  }

  /** Every parent entry given to `CreateBlob` is found again. */
  lemma FindParentAfterCreateBlob(root: TileKey, depth: nat, parents: seq<IndexData>, subs: seq<IndexData>, e: IndexData)
    requires CreateBlob(root, depth, parents, subs).Success?
    requires e in parents
    ensures Find(FromBlob(CreateBlob(root, depth, parents, subs).value), e.tileKey) == Some(e)
  {
    CreatedLayout(root, depth, parents, subs);
    var ss, ps := SortBy(subs, SubKeyOf(root)), SortBy(parents, QuadKeyOf());
    var j0 :| 0 <= j0 < |parents| && parents[j0] == e;
    assert e in multiset(ps);
    var j :| 0 <= j < |ps| && ps[j] == e;
    FindParentInLayout(root, depth, ss, ps, j);
  }

  /** In a layout whose entries all belong to other tiles, `t` is not found. */
  lemma FindMissingInLayout(root: TileKey, depth: nat, ss: seq<IndexData>, ps: seq<IndexData>, t: TileKey)
    requires AllEncodable(ss) && AllEncodable(ps) && Valid(root)
    requires QuadKey(root) >= 1 && FromQuadKey(QuadKey(root)) == root
    requires forall i :: 0 <= i < |ss| ==> ss[i].tileKey != t && IsAncestorOrSelf(root, ss[i].tileKey)
    requires forall i :: 0 <= i < |ps| ==> ps[i].tileKey != t && AboveRoot(root, ps[i].tileKey)
    ensures FindIn(BuildLayout(root, depth, ss, ps), t).None?
  {
    var l := BuildLayout(root, depth, ss, ps);
    if InSubtree(root, depth, t) {
      var keys := SubKeys(l.subs);
      forall i | 0 <= i < |keys|
        ensures keys[i] != SubKey(root, t)
      {
        if keys[i] == SubKey(root, t) {
          SubKeyInjective(root, ss[i].tileKey, t);
        }
      }
    } else if AboveRoot(root, t) {
      var keys := ParentKeys(l.parents);
      AboveRootValid(root, t);
      forall i | 0 <= i < |keys|
        ensures keys[i] != QuadKey(t)
      {
        AboveRootValid(root, ps[i].tileKey);
        if keys[i] == QuadKey(t) {
          QuadKeyInjective(ps[i].tileKey, t);
        }
      }
    }
  }

  /** A tile that was in neither list is not found. */
  lemma FindMissingAfterCreateBlob(root: TileKey, depth: nat, parents: seq<IndexData>, subs: seq<IndexData>, t: TileKey)
    requires CreateBlob(root, depth, parents, subs).Success?
    requires forall i :: 0 <= i < |subs| ==> subs[i].tileKey != t
    requires forall i :: 0 <= i < |parents| ==> parents[i].tileKey != t
    ensures Find(FromBlob(CreateBlob(root, depth, parents, subs).value), t).None?
  {
    var blob := CreateBlob(root, depth, parents, subs).value;
    CreatedLayout(root, depth, parents, subs);
    var ss, ps := SortBy(subs, SubKeyOf(root)), SortBy(parents, QuadKeyOf());
    assert Find(FromBlob(blob), t) == FindIn(BuildLayout(root, depth, ss, ps), t);
    SortedListsMiss(root, depth, parents, subs, t);
    FindMissingInLayout(root, depth, ss, ps, t);
  }

  /** Sorting the argument lists keeps them clear of `t` and within coverage. */
  lemma SortedListsMiss(root: TileKey, depth: nat, parents: seq<IndexData>, subs: seq<IndexData>, t: TileKey)
    requires ArgumentsFit(root, depth, parents, subs)
    requires forall i :: 0 <= i < |subs| ==> subs[i].tileKey != t
    requires forall i :: 0 <= i < |parents| ==> parents[i].tileKey != t
    ensures forall i :: 0 <= i < |SortBy(subs, SubKeyOf(root))| ==>
      SortBy(subs, SubKeyOf(root))[i].tileKey != t && IsAncestorOrSelf(root, SortBy(subs, SubKeyOf(root))[i].tileKey)
    ensures forall i :: 0 <= i < |SortBy(parents, QuadKeyOf())| ==>
      SortBy(parents, QuadKeyOf())[i].tileKey != t && AboveRoot(root, SortBy(parents, QuadKeyOf())[i].tileKey)
  {
    SortKeepsAll(subs, SubKeyOf(root), (e: IndexData) => e.tileKey != t && IsAncestorOrSelf(root, e.tileKey));
    SortKeepsAll(parents, QuadKeyOf(), (e: IndexData) => e.tileKey != t && AboveRoot(root, e.tileKey));
  }

  lemma TagsOfLayoutInRange(root: TileKey, depth: nat, ss: seq<IndexData>, ps: seq<IndexData>)
    requires AllEncodable(ss) && AllEncodable(ps)
    ensures TagsInRange(BuildLayout(root, depth, ss, ps))
  {
    TagsOfBuiltLayout(root, depth, ss, ps);
  }

  /** A created blob passes validation. */
  lemma CreateBlobWellFormed(root: TileKey, depth: nat, parents: seq<IndexData>, subs: seq<IndexData>)
    requires CreateBlob(root, depth, parents, subs).Success?
    ensures Decode(CreateBlob(root, depth, parents, subs).value).Success?
  {
    CreatedLayout(root, depth, parents, subs);
    var ss, ps := SortBy(subs, SubKeyOf(root)), SortBy(parents, QuadKeyOf());
    var blob := CreateBlob(root, depth, parents, subs).value;
    var l := BuildLayout(root, depth, ss, ps);
    assert Parse(blob) == Some(l);
    SubKeysStrict(root, depth, ss, ps);
    ParentKeysStrict(root, depth, ss, ps);
    TagsOfLayoutInRange(root, depth, ss, ps);
    assert l.header.rootTilekey >= 1;
    assert WellFormed(blob);
  }
}
