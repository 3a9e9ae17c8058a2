/** The binary layout of a quadtree index buffer (`QuadTreeIndex::DataHeader`
    and the regions behind it):

      header      u64 root_tilekey, u8 depth, u8 parent_count, u16 subkey_count
      sub entries subkey_count x { u16 sub_quadkey, u16 tag_offset }
      parents     parent_count x { u64 key, u32 tag_offset }
      tag data    records { u8 flags, [u64 version], [NUL-terminated handle] }

    Integers are little-endian and the structures are packed. Tag offsets are
    relative to the start of the tag data region. */
module QuadLayout {
  import opened Wrappers
  import opened Bytes

  const HeaderSize: nat := 12
  const SubEntrySize: nat := 4
  const ParentEntrySize: nat := 12

  /** `BitSetFlags`: bits of a tag record's flag byte. */
  const kVersion: nat := 0x1
  const kCrc: nat := 0x2
  const kDataHandle: nat := 0x8

  datatype SubEntry = SubEntry(subQuadkey: nat, tagOffset: nat)
  datatype ParentEntry = ParentEntry(key: nat, tagOffset: nat)
  datatype DataHeader = DataHeader(rootTilekey: nat, depth: nat, parentCount: nat, subkeyCount: nat)

  /** A buffer split into its four regions. */
  datatype Layout = Layout(header: DataHeader, subs: seq<SubEntry>, parents: seq<ParentEntry>, tagData: seq<Byte>)

  predicate SubEntryFits(e: SubEntry) {
    e.subQuadkey < U16Limit && e.tagOffset < U16Limit
  }

  predicate ParentEntryFits(e: ParentEntry) {
    e.key < U64Limit && e.tagOffset < U32Limit
  }

  predicate HeaderFits(h: DataHeader) {
    h.rootTilekey < U64Limit && h.depth < U8Limit && h.parentCount < U8Limit && h.subkeyCount < U16Limit
  }

  /** Every field of the layout fits its width and the counts match the arrays. */
  predicate Representable(l: Layout) {
    && HeaderFits(l.header)
    && l.header.subkeyCount == |l.subs|
    && l.header.parentCount == |l.parents|
    && (forall i :: 0 <= i < |l.subs| ==> SubEntryFits(l.subs[i]))
    && (forall i :: 0 <= i < |l.parents| ==> ParentEntryFits(l.parents[i]))
  }

  // ---------------------------------------------------------------- writing

  function HeaderBytes(h: DataHeader): (r: seq<Byte>)
    requires HeaderFits(h)
    ensures |r| == HeaderSize
  {
    FieldLimits();
    EncodeLE(h.rootTilekey, 8) + EncodeLE(h.depth, 1) + EncodeLE(h.parentCount, 1) + EncodeLE(h.subkeyCount, 2)
  }

  function SubEntryBytes(e: SubEntry): (r: seq<Byte>)
    requires SubEntryFits(e)
    ensures |r| == SubEntrySize
  {
    FieldLimits();
    EncodeLE(e.subQuadkey, 2) + EncodeLE(e.tagOffset, 2)
  }

  function ParentEntryBytes(e: ParentEntry): (r: seq<Byte>)
    requires ParentEntryFits(e)
    ensures |r| == ParentEntrySize
  {
    FieldLimits();
    EncodeLE(e.key, 8) + EncodeLE(e.tagOffset, 4)
  }

  function SubEntriesBytes(es: seq<SubEntry>): (r: seq<Byte>)
    requires forall i :: 0 <= i < |es| ==> SubEntryFits(es[i])
    ensures |r| == SubEntrySize * |es|
  {
    if |es| == 0 then [] else SubEntryBytes(es[0]) + SubEntriesBytes(es[1..])
  }

  function ParentEntriesBytes(es: seq<ParentEntry>): (r: seq<Byte>)
    requires forall i :: 0 <= i < |es| ==> ParentEntryFits(es[i])
    ensures |r| == ParentEntrySize * |es|
  {
    if |es| == 0 then [] else ParentEntryBytes(es[0]) + ParentEntriesBytes(es[1..])
  }

  /** The buffer for a layout: the regions back to back, in order. */
  function Serialize(l: Layout): (r: seq<Byte>)
    requires Representable(l)
    ensures |r| == HeaderSize + SubEntrySize * |l.subs| + ParentEntrySize * |l.parents| + |l.tagData|
  {
    HeaderBytes(l.header) + SubEntriesBytes(l.subs) + ParentEntriesBytes(l.parents) + l.tagData
  }

  // ---------------------------------------------------------------- reading

  function ReadHeader(data: seq<Byte>): DataHeader
    requires |data| >= HeaderSize
  {
    DataHeader(DecodeLE(data[0..8]), DecodeLE(data[8..9]), DecodeLE(data[9..10]), DecodeLE(data[10..12]))
  }

  /** Region accessors: each region starts where the previous one ends. */
  function SubEntryBegin(data: seq<Byte>): nat
    requires |data| >= HeaderSize
  {
    HeaderSize
  }

  function SubEntryEnd(data: seq<Byte>): nat
    requires |data| >= HeaderSize
  {
    SubEntryBegin(data) + SubEntrySize * ReadHeader(data).subkeyCount
  }

  function ParentEntryBegin(data: seq<Byte>): nat
    requires |data| >= HeaderSize
  {
    SubEntryEnd(data)
  }

  function ParentEntryEnd(data: seq<Byte>): nat
    requires |data| >= HeaderSize
  {
    ParentEntryBegin(data) + ParentEntrySize * ReadHeader(data).parentCount
  }

  function DataBegin(data: seq<Byte>): nat
    requires |data| >= HeaderSize
  {
    ParentEntryEnd(data)
  }

  function DataEnd(data: seq<Byte>): nat
    requires |data| >= HeaderSize
  {
    |data|
  }

  /** The buffer is long enough for the header and for the arrays it declares. */
  predicate RegionsFit(data: seq<Byte>) {
    |data| >= HeaderSize && DataBegin(data) <= DataEnd(data)
  }

  function SubEntryFromBytes(s: seq<Byte>): SubEntry
    requires |s| == SubEntrySize
  {
    SubEntry(DecodeLE(s[0..2]), DecodeLE(s[2..4]))
  }

  function ParentEntryFromBytes(s: seq<Byte>): ParentEntry
    requires |s| == ParentEntrySize
  {
    ParentEntry(DecodeLE(s[0..8]), DecodeLE(s[8..12]))
  }

  function ParseSubs(s: seq<Byte>): (r: seq<SubEntry>)
    requires |s| % SubEntrySize == 0
    ensures |r| == |s| / SubEntrySize
  {
    if |s| == 0 then [] else [SubEntryFromBytes(s[..SubEntrySize])] + ParseSubs(s[SubEntrySize..])
  }

  function ParseParents(s: seq<Byte>): (r: seq<ParentEntry>)
    requires |s| % ParentEntrySize == 0
    ensures |r| == |s| / ParentEntrySize
  {
    if |s| == 0 then [] else [ParentEntryFromBytes(s[..ParentEntrySize])] + ParseParents(s[ParentEntrySize..])
  }

  /** Splits a buffer into its regions; `None` when it is shorter than the
      header or than the arrays the header declares. */
  function Parse(data: seq<Byte>): (r: Option<Layout>)
    ensures r.Some? <==> RegionsFit(data)
    ensures r.Some? ==> r.value.header == ReadHeader(data)
    ensures r.Some? ==> |r.value.subs| == ReadHeader(data).subkeyCount
    ensures r.Some? ==> |r.value.parents| == ReadHeader(data).parentCount
    ensures r.Some? ==> r.value.tagData == data[DataBegin(data)..DataEnd(data)]
  {
    if !RegionsFit(data) then None
    else
      var h := ReadHeader(data);
      Some(Layout(h,
                  ParseSubs(data[SubEntryBegin(data)..SubEntryEnd(data)]),
                  ParseParents(data[ParentEntryBegin(data)..ParentEntryEnd(data)]),
                  data[DataBegin(data)..DataEnd(data)]))
  }

  /** Random access to the i-th sub entry, as the reader does it. */
  function SubEntryAt(data: seq<Byte>, i: nat): SubEntry
    requires RegionsFit(data) && i < ReadHeader(data).subkeyCount
  {
    var p := SubEntryBegin(data) + SubEntrySize * i;
    SubEntryFromBytes(data[p..p + SubEntrySize])
  }

  function ParentEntryAt(data: seq<Byte>, i: nat): ParentEntry
    requires RegionsFit(data) && i < ReadHeader(data).parentCount
  {
    var p := ParentEntryBegin(data) + ParentEntrySize * i;
    ParentEntryFromBytes(data[p..p + ParentEntrySize])
  }

  // ------------------------------------------------------------- round trips

  lemma {:induction false} ParseSubsAt(s: seq<Byte>, i: nat)
    requires |s| % SubEntrySize == 0 && i < |s| / SubEntrySize
    ensures SubEntrySize * i + SubEntrySize <= |s|
    ensures ParseSubs(s)[i] == SubEntryFromBytes(s[SubEntrySize * i..SubEntrySize * i + SubEntrySize])
  {
    if i > 0 {
      var t := s[SubEntrySize..];
      ParseSubsAt(t, i - 1);
      var k := SubEntrySize * (i - 1);
      assert SubEntrySize * i == k + SubEntrySize;
      DropSlice(s, SubEntrySize, k, k + SubEntrySize);
    }
  }

  lemma {:induction false} ParseParentsAt(s: seq<Byte>, i: nat)
    requires |s| % ParentEntrySize == 0 && i < |s| / ParentEntrySize
    ensures ParentEntrySize * i + ParentEntrySize <= |s|
    ensures ParseParents(s)[i] == ParentEntryFromBytes(s[ParentEntrySize * i..ParentEntrySize * i + ParentEntrySize])
  {
    if i > 0 {
      var t := s[ParentEntrySize..];
      ParseParentsAt(t, i - 1);
      var k := ParentEntrySize * (i - 1);
      assert ParentEntrySize * i == k + ParentEntrySize;
      DropSlice(s, ParentEntrySize, k, k + ParentEntrySize);
    }
  }

  /** The random-access reader of sub entries sees the parsed sub region:
      the entries start right after the header. */
  lemma SubEntryAtMatchesRegion(data: seq<Byte>, i: nat)
    requires RegionsFit(data) && i < ReadHeader(data).subkeyCount
    ensures SubEntryAt(data, i) == Parse(data).value.subs[i]
  {
    var b := SubEntryBegin(data);
    var s := data[b..SubEntryEnd(data)];
    ParseSubsAt(s, i);
    SubSlice(data, b, |s|, SubEntrySize * i, SubEntrySize * i + SubEntrySize);
  }

  /** The random-access reader of parent entries sees the parsed parent
      region: the entries start right after the sub entries. */
  lemma ParentEntryAtMatchesRegion(data: seq<Byte>, i: nat)
    requires RegionsFit(data) && i < ReadHeader(data).parentCount
    ensures ParentEntryAt(data, i) == Parse(data).value.parents[i]
  {
    var b := ParentEntryBegin(data);
    var s := data[b..ParentEntryEnd(data)];
    ParseParentsAt(s, i);
    SubSlice(data, b, |s|, ParentEntrySize * i, ParentEntrySize * i + ParentEntrySize);
  }

  lemma {:induction false} SubEntryBytesRoundTrip(e: SubEntry)
    requires SubEntryFits(e)
    ensures SubEntryFromBytes(SubEntryBytes(e)) == e
  {
    FieldLimits();
    var b := SubEntryBytes(e);
    assert b[0..2] == EncodeLE(e.subQuadkey, 2);
    assert b[2..4] == EncodeLE(e.tagOffset, 2);
    DecodeEncodeLE(e.subQuadkey, 2);
    DecodeEncodeLE(e.tagOffset, 2);
  }

  lemma {:induction false} ParentEntryBytesRoundTrip(e: ParentEntry)
    requires ParentEntryFits(e)
    ensures ParentEntryFromBytes(ParentEntryBytes(e)) == e
  {
    FieldLimits();
    var b := ParentEntryBytes(e);
    assert b[0..8] == EncodeLE(e.key, 8);
    assert b[8..12] == EncodeLE(e.tagOffset, 4);
    DecodeEncodeLE(e.key, 8);
    DecodeEncodeLE(e.tagOffset, 4);
  }

  lemma {:induction false} ParseSubsOfBytes(es: seq<SubEntry>)
    requires forall i :: 0 <= i < |es| ==> SubEntryFits(es[i])
    ensures ParseSubs(SubEntriesBytes(es)) == es
  {
    if |es| > 0 {
      var b := SubEntriesBytes(es);
      assert b[..SubEntrySize] == SubEntryBytes(es[0]);
      assert b[SubEntrySize..] == SubEntriesBytes(es[1..]);
      SubEntryBytesRoundTrip(es[0]);
      ParseSubsOfBytes(es[1..]);
    }
  }

  lemma {:induction false} ParseParentsOfBytes(es: seq<ParentEntry>)
    requires forall i :: 0 <= i < |es| ==> ParentEntryFits(es[i])
    ensures ParseParents(ParentEntriesBytes(es)) == es
  {
    if |es| > 0 {
      var b := ParentEntriesBytes(es);
      assert b[..ParentEntrySize] == ParentEntryBytes(es[0]);
      assert b[ParentEntrySize..] == ParentEntriesBytes(es[1..]);
      ParentEntryBytesRoundTrip(es[0]);
      ParseParentsOfBytes(es[1..]);
    }
  }

  lemma {:induction false} HeaderRoundTrip(h: DataHeader)
    requires HeaderFits(h)
    ensures ReadHeader(HeaderBytes(h)) == h
  {
    FieldLimits();
    var b := HeaderBytes(h);
    assert b[0..8] == EncodeLE(h.rootTilekey, 8);
    assert b[8..9] == EncodeLE(h.depth, 1);
    assert b[9..10] == EncodeLE(h.parentCount, 1);
    assert b[10..12] == EncodeLE(h.subkeyCount, 2);
    DecodeEncodeLE(h.rootTilekey, 8);
    DecodeEncodeLE(h.depth, 1);
    DecodeEncodeLE(h.parentCount, 1);
    DecodeEncodeLE(h.subkeyCount, 2);
  }

  /** Reading a written layout gives the layout back: the sub entries sit right
      after the header, the parent entries right after the sub entries, and the
      tag data runs from there to the end of the buffer. */
  lemma {:induction false} ParseSerialize(l: Layout)
    requires Representable(l)
    ensures Parse(Serialize(l)) == Some(l)
  {
    var hb, sb, pb := HeaderBytes(l.header), SubEntriesBytes(l.subs), ParentEntriesBytes(l.parents);
    var data := Serialize(l);
    SerializedHeader(l);
    var sEnd := HeaderSize + |sb|;
    var pEnd := sEnd + |pb|;
    assert SubEntryEnd(data) == sEnd && DataBegin(data) == pEnd;
    assert RegionsFit(data);
    SerializedRegions(l);
    assert data[SubEntryBegin(data)..SubEntryEnd(data)] == sb;
    assert data[ParentEntryBegin(data)..ParentEntryEnd(data)] == pb;
    assert data[DataBegin(data)..DataEnd(data)] == l.tagData;
    ParseSubsOfBytes(l.subs);
    ParseParentsOfBytes(l.parents);
    assert Parse(data).value == Layout(l.header, ParseSubs(sb), ParseParents(pb), l.tagData);
  }

  lemma {:induction false} SerializedHeader(l: Layout)
    requires Representable(l)
    ensures ReadHeader(Serialize(l)) == l.header
  {
    var hb := HeaderBytes(l.header);
    var data := Serialize(l);
    assert data[..HeaderSize] == hb;
    HeaderRoundTrip(l.header);
    assert data[0..8] == hb[0..8];
    assert data[8..9] == hb[8..9];
    assert data[9..10] == hb[9..10];
    assert data[10..12] == hb[10..12];
  }

  lemma {:induction false} SerializedRegions(l: Layout)
    requires Representable(l)
    ensures var data := Serialize(l);
            var sEnd := HeaderSize + SubEntrySize * |l.subs|;
            var pEnd := sEnd + ParentEntrySize * |l.parents|;
            && data[HeaderSize..sEnd] == SubEntriesBytes(l.subs)
            && data[sEnd..pEnd] == ParentEntriesBytes(l.parents)
            && data[pEnd..] == l.tagData
  {
    var hb, sb, pb := HeaderBytes(l.header), SubEntriesBytes(l.subs), ParentEntriesBytes(l.parents);
    var data := Serialize(l);
    assert data == hb + sb + pb + l.tagData;
  }

  /** Any four bytes are the serialisation of the sub entry read from them. */
  lemma SubEntryBytesOfRead(c: seq<Byte>)
    requires |c| == SubEntrySize
    ensures SubEntryFits(SubEntryFromBytes(c)) && SubEntryBytes(SubEntryFromBytes(c)) == c
  {
    FieldLimits();
    EncodeDecodeLE(c[0..2]);
    EncodeDecodeLE(c[2..4]);
    assert c == c[0..2] + c[2..4];
  }

  /** Any twelve bytes are the serialisation of the parent entry read from them. */
  lemma ParentEntryBytesOfRead(c: seq<Byte>)
    requires |c| == ParentEntrySize
    ensures ParentEntryFits(ParentEntryFromBytes(c)) && ParentEntryBytes(ParentEntryFromBytes(c)) == c
  {
    FieldLimits();
    EncodeDecodeLE(c[0..8]);
    EncodeDecodeLE(c[8..12]);
    assert c == c[0..8] + c[8..12];
  }

  lemma {:induction false} SubsBytesOfParse(s: seq<Byte>)
    requires |s| % SubEntrySize == 0
    ensures forall i :: 0 <= i < |ParseSubs(s)| ==> SubEntryFits(ParseSubs(s)[i])
    ensures SubEntriesBytes(ParseSubs(s)) == s
  {
    if |s| > 0 {
      var c, rest := s[..SubEntrySize], s[SubEntrySize..];
      SubEntryBytesOfRead(c);
      SubsBytesOfParse(rest);
      var es := ParseSubs(s);
      ConsParts(SubEntryFromBytes(c), ParseSubs(rest), es);
      assert s == c + rest;
    }
  }

  lemma {:induction false} ParentsBytesOfParse(s: seq<Byte>)
    requires |s| % ParentEntrySize == 0
    ensures forall i :: 0 <= i < |ParseParents(s)| ==> ParentEntryFits(ParseParents(s)[i])
    ensures ParentEntriesBytes(ParseParents(s)) == s
  {
    if |s| > 0 {
      var c, rest := s[..ParentEntrySize], s[ParentEntrySize..];
      ParentEntryBytesOfRead(c);
      ParentsBytesOfParse(rest);
      var es := ParseParents(s);
      ConsParts(ParentEntryFromBytes(c), ParseParents(rest), es);
      assert s == c + rest;
    }
  }

  /** Any twelve leading bytes are the serialisation of the header read from them. */
  lemma {:induction false} HeaderBytesOfRead(data: seq<Byte>)
    requires |data| >= HeaderSize
    ensures HeaderFits(ReadHeader(data))
    ensures HeaderBytes(ReadHeader(data)) == data[..HeaderSize]
  {
    FieldLimits();
    var h := ReadHeader(data);
    assert h.rootTilekey < Pow256(8) && h.depth < Pow256(1) && h.parentCount < Pow256(1) && h.subkeyCount < Pow256(2);
    EncodeDecodeLE(data[0..8]);
    EncodeDecodeLE(data[8..9]);
    EncodeDecodeLE(data[9..10]);
    EncodeDecodeLE(data[10..12]);
    assert data[..HeaderSize] == data[0..8] + data[8..9] + data[9..10] + data[10..12];
  }

  /** Conversely every buffer whose regions fit is the serialisation of its
      parsed layout: parsing loses nothing. */
  lemma {:induction false} SerializeParse(data: seq<Byte>)
    requires RegionsFit(data)
    ensures Representable(Parse(data).value)
    ensures Serialize(Parse(data).value) == data
  {
    var l := Parse(data).value;
    var sb := data[SubEntryBegin(data)..SubEntryEnd(data)];
    var pb := data[ParentEntryBegin(data)..ParentEntryEnd(data)];
    assert l == Layout(ReadHeader(data), ParseSubs(sb), ParseParents(pb), data[DataBegin(data)..DataEnd(data)]);
    HeaderBytesOfRead(data);
    SubsBytesOfParse(sb);
    ParentsBytesOfParse(pb);
    assert Representable(l);
    RegionsConcat(data);
    assert Serialize(l) == data[..HeaderSize] + sb + pb + data[DataBegin(data)..DataEnd(data)];
  }

  /** The four regions, in order, make up the whole buffer. */
  lemma RegionsConcat(data: seq<Byte>)
    requires RegionsFit(data)
    ensures data == data[..HeaderSize] + data[SubEntryBegin(data)..SubEntryEnd(data)]
                    + data[ParentEntryBegin(data)..ParentEntryEnd(data)] + data[DataBegin(data)..DataEnd(data)]
  {
  }

  // ------------------------------------------------------------- tag records

  /** Whether a flag byte has the bit of the mask `flag` set, one of the
      three masks a tag record knows. */
  predicate HasFlag(flags: Byte, flag: nat)
    requires flag == kVersion || flag == kCrc || flag == kDataHandle
  {
    if flag == kVersion then flags % 2 == 1
    else if flag == kCrc then flags / 2 % 2 == 1
    else flags / 8 % 2 == 1
  }

  predicate NoNul(s: seq<Byte>) {
    forall i :: 0 <= i < |s| ==> s[i] != 0
  }

  /** What a tag record holds (`AdditionalData`); a version whose flag is
      clear reads as 0 and an absent handle as the empty string. */
  datatype AdditionalData = AdditionalData(version: nat, dataHandle: seq<Byte>)

  /** Position of the first NUL at or after `p`. */
  function FindNul(s: seq<Byte>, p: nat): (r: Option<nat>)
    ensures r.Some? ==> p <= r.value < |s| && s[r.value] == 0
    decreases |s| - p
  {
    if p >= |s| then None
    else if s[p] == 0 then Some(p)
    else FindNul(s, p + 1)
  }

  /** `FindNul` finds the first NUL: none lies between `p` and the one found,
      and when it finds none there is none from `p` on. */
  lemma {:induction false} FindNulFirst(s: seq<Byte>, p: nat)
    ensures FindNul(s, p).Some? ==> NoNul(s[p..FindNul(s, p).value])
    ensures FindNul(s, p).None? ==> forall i :: p <= i < |s| ==> s[i] != 0
    decreases |s| - p
  {
    if p < |s| && s[p] != 0 {
      FindNulFirst(s, p + 1);
      var r := FindNul(s, p + 1);
      if r.Some? {
        assert s[p..r.value] == [s[p]] + s[p + 1..r.value];
      }
    }
  }

  /** The handle starting at `q`: the bytes up to the next NUL, or `None`
      when no NUL follows. */
  function ReadHandle(tags: seq<Byte>, q: nat): Option<seq<Byte>>
  {
    match FindNul(tags, q)
    case None => None
    case Some(e) => Some(tags[q..e])
  }

  /** Size of a tag record before its handle: the flag byte and the 8-byte
      version field, which the packed record always holds. */
  const TagHeaderSize: nat := 9

  /** The tag record starting at `offset` in the tag data region, or `None`
      when it runs past the end of the region. The version field is always
      there but meaningful only under `kVersion`; the handle starts right
      after it. */
  function ParseTag(tags: seq<Byte>, offset: nat): (r: Option<AdditionalData>)
    ensures r.Some? ==> offset + TagHeaderSize <= |tags|
  {
    if offset + TagHeaderSize > |tags| then None
    else
      var flags := tags[offset];
      var version := if HasFlag(flags, kVersion) then DecodeLE(tags[offset + 1..offset + TagHeaderSize]) else 0;
      if !HasFlag(flags, kDataHandle) then Some(AdditionalData(version, []))
      else
        match ReadHandle(tags, offset + TagHeaderSize)
        case None => None
        case Some(h) => Some(AdditionalData(version, h))
  }

  /** A parsed handle holds no NUL byte: it ends at the first one. */
  lemma ParseTagHandle(tags: seq<Byte>, offset: nat)
    requires ParseTag(tags, offset).Some?
    ensures NoNul(ParseTag(tags, offset).value.dataHandle)
  {
    FindNulFirst(tags, offset + TagHeaderSize);
  }

  /** Whatever the flags say, a parsed handle is the bytes from the ninth
      byte of the record up to the NUL that ends it. */
  lemma ParseTagHandleAfterVersion(tags: seq<Byte>, offset: nat)
    requires ParseTag(tags, offset).Some? && HasFlag(tags[offset], kDataHandle)
    ensures var h := ParseTag(tags, offset).value.dataHandle;
            && offset + TagHeaderSize + |h| < |tags|
            && tags[offset + TagHeaderSize..offset + TagHeaderSize + |h|] == h
            && tags[offset + TagHeaderSize + |h|] == 0
  {
  }

  /** A record with only `kDataHandle` set still holds the version field: a
      handle written right after the flag byte is too short to be a record,
      and one written after the zeroed field reads back with version 0. */
  lemma UnversionedRecordKeepsVersionField()
    ensures ParseTag([8, 104, 0], 0).None?
    ensures ParseTag([8, 0, 0, 0, 0, 0, 0, 0, 0, 104, 0], 0) == Some(AdditionalData(0, [104]))
  {
    var tags: seq<Byte> := [8, 0, 0, 0, 0, 0, 0, 0, 0, 104, 0];
    assert !HasFlag(tags[0], kVersion) && HasFlag(tags[0], kDataHandle);
    assert FindNul(tags, 10) == Some(10);
    assert FindNul(tags, 9) == Some(10);
    assert ReadHandle(tags, 9) == Some(tags[9..10]);
    assert tags[9..10] == [104];
  }

  /** The flag byte decides which fields a parsed record has: without
      `kVersion` the version is 0, without `kDataHandle` the handle is empty. */
  lemma ParseTagFlags(tags: seq<Byte>, offset: nat)
    requires ParseTag(tags, offset).Some?
    ensures !HasFlag(tags[offset], kVersion) ==> ParseTag(tags, offset).value.version == 0
    ensures !HasFlag(tags[offset], kDataHandle) ==> ParseTag(tags, offset).value.dataHandle == []
  {
  }

  /** The record written for an entry: the version is always present, the
      handle only when it is not empty. */
  function EncodeTag(a: AdditionalData): (r: seq<Byte>)
    requires a.version < U64Limit && NoNul(a.dataHandle)
    ensures |r| >= 1
  {
    FieldLimits();
    var flags := kVersion + (if |a.dataHandle| > 0 then kDataHandle else 0);
    [flags as Byte] + EncodeLE(a.version, 8) + (if |a.dataHandle| > 0 then a.dataHandle + [0] else [])
  }

  lemma {:induction false} FindNulAfter(s: seq<Byte>, q: nat, h: seq<Byte>)
    requires q + |h| < |s| && s[q..q + |h|] == h && NoNul(h) && s[q + |h|] == 0
    ensures FindNul(s, q) == Some(q + |h|)
    decreases |h|
  {
    if |h| > 0 {
      assert s[q] == h[0] != 0;
      assert s[q + 1..q + 1 + |h[1..]|] == h[1..];
      FindNulAfter(s, q + 1, h[1..]);
    }
  }

  /** A written record's flags byte: the version flag always, the handle flag
      exactly when there is a handle. */
  lemma EncodedTagFlags(a: AdditionalData)
    requires a.version < U64Limit && NoNul(a.dataHandle)
    ensures HasFlag(EncodeTag(a)[0], kVersion)
    ensures HasFlag(EncodeTag(a)[0], kDataHandle) <==> |a.dataHandle| > 0
  {
    FieldLimits();
    if |a.dataHandle| > 0 {
      assert EncodeTag(a)[0] == 9;
    } else {
      assert EncodeTag(a)[0] == 1;
    }
  }

  /** The handle of a written record ends at the first NUL after it. */
  lemma EncodedTagHandle(tags: seq<Byte>, p: nat, a: AdditionalData)
    requires a.version < U64Limit && NoNul(a.dataHandle) && |a.dataHandle| > 0
    requires p + |EncodeTag(a)| <= |tags| && tags[p..p + |EncodeTag(a)|] == EncodeTag(a)
    ensures p + 9 + |a.dataHandle| <= |tags|
    ensures FindNul(tags, p + 9) == Some(p + 9 + |a.dataHandle|)
    ensures tags[p + 9..p + 9 + |a.dataHandle|] == a.dataHandle
  {
    var rec := EncodeTag(a);
    var h := a.dataHandle;
    assert |rec| == 10 + |h|;
    SubSlice(tags, p, |rec|, 9, 9 + |h|);
    assert rec[9..9 + |h|] == h;
    assert tags[p + 9 + |h|] == rec[9 + |h|] == 0;
    FindNulAfter(tags, p + 9, h);
  }

  /** A written record reads back as what was written, whatever follows it. */
  lemma ParseEncodedTag(tags: seq<Byte>, p: nat, a: AdditionalData)
    requires a.version < U64Limit && NoNul(a.dataHandle)
    requires p + |EncodeTag(a)| <= |tags| && tags[p..p + |EncodeTag(a)|] == EncodeTag(a)
    ensures ParseTag(tags, p) == Some(a)
  {
    var rec := EncodeTag(a);
    assert tags[p] == rec[0];
    EncodedTagFlags(a);
    assert |rec| >= 9;
    SubSlice(tags, p, |rec|, 1, 9);
    assert rec[1..9] == EncodeLE(a.version, 8);
    DecodeEncodeLE(a.version, 8);
    if |a.dataHandle| > 0 {
      EncodedTagHandle(tags, p, a);
    }
  }

  /** A record inside the left part of a concatenation reads back. */
  lemma ParseEncodedTagLeft(left: seq<Byte>, right: seq<Byte>, p: nat, a: AdditionalData)
    requires a.version < U64Limit && NoNul(a.dataHandle)
    requires p + |EncodeTag(a)| <= |left| && left[p..p + |EncodeTag(a)|] == EncodeTag(a)
    ensures ParseTag(left + right, p) == Some(a)
  {
    SliceLeft(left, right, p, p + |EncodeTag(a)|);
    ParseEncodedTag(left + right, p, a);
  }
}
