/** Sealing a Hybrid upper from its writer to the layer file: what the compacted log
    and the payload become, byte by byte, and that it reads as the writer did. */
module HybridSeal {
  import opened Segments
  import opened SectorArray
  import opened Codec
  import opened HybridTransaction
  import HybridReplay
  import HybridStore
  import LsmtFile

  /** The sectors of a file, each as one value: its bytes, little-endian. */
  function Blocks(data: Bytes): (r: seq<Block>)
    ensures |r| == |data| / SECTOR
  {
    seq(|data| / SECTOR, p requires 0 <= p < |data| / SECTOR => SectorValue(data[SECTOR * p..SECTOR * p + SECTOR]))
  }

  function SectorValue(b: Bytes): Block { LoadLe(b) }

  /** Different contents have different values, and only all zeroes are zero. */
  lemma {:induction false} SectorValueInjective(a: Bytes, b: Bytes)
    requires |a| == |b| && SectorValue(a) == SectorValue(b)
    ensures a == b
  {
    StoreLoad(a);
    StoreLoad(b);
  }

  lemma {:induction false} ZeroIsZero(n: nat)
    ensures SectorValue(ZeroBytes(n)) == ZERO_BLOCK
  {
    if n > 0 {
      assert ZeroBytes(n)[1..] == ZeroBytes(n - 1);
      ZeroIsZero(n - 1);
    }
  }

  /** The files hold what the writer has in memory. */
  ghost predicate Holds(data: Bytes, index: Bytes, mappings: seq<Mapping>, log: seq<Mapping>, blocks: seq<Block>,
                        sectors: nat, dataEnd: nat) {
    && HybridStore.Good(mappings, log, sectors, dataEnd) && |blocks| == dataEnd
    && Opened(data, index) && |data| == SECTOR * dataEnd && Blocks(data) == blocks
    && index[SPACE..] == EncodeAll(log) && Parse(data[..SPACE]).value.virtualSize == SECTOR * sectors
  }

  lemma {:induction false} EntriesEncodable(l: seq<Mapping>, sectors: nat, dataEnd: nat)
    requires HybridStore.MapOk(l, sectors, dataEnd) && HybridStore.AllBacked(l)
    requires sectors <= MAX_OFFSET && dataEnd <= MAX_FILE_SECTORS
    ensures forall i :: 0 <= i < |l| ==> Encodable(l[i])
  {
    forall i | 0 <= i < |l|
      ensures Encodable(l[i])
    {
      assert HybridStore.EntryOk(l[i], dataEnd) && l[i].moffset != NO_PHYSICAL;
    }
  }

  /** A compacted index is a log a seal accepts. */
  lemma {:induction false} CompactedSealable(l: seq<Mapping>, sectors: nat, dataEnd: nat)
    requires HybridStore.Good(l, l, sectors, dataEnd) && HybridStore.AllBacked(l)
    ensures Sealable(l, sectors, dataEnd)
  {
    HybridStore.CompactVerifies(l, sectors, dataEnd);
    forall i | 0 <= i < |l|
      ensures l[i].length > 0 && l[i].tag == 0 && l[i].moffset != NO_PHYSICAL
    {
      assert HybridStore.EntryOk(l[i], dataEnd);
    }
  }

  /** After a successful compaction the pair can be sealed, for every storable tag,
      whenever the sealed file has room. */
  lemma {:induction false} CompactedCanSeal(data: Bytes, index: Bytes, l: seq<Mapping>, blocks: seq<Block>,
                                            sectors: nat, dataEnd: nat, userTag: Bytes)
    requires Holds(data, index, l, l, blocks, sectors, dataEnd) && HybridStore.AllBacked(l)
    requires |userTag| < 256 && 0 !in userTag && |data| + |index| + SPACE <= MAX_FILE
    ensures CanSeal(data, index, userTag)
  {
    EntriesEncodable(l, sectors, dataEnd);
    DecodeEncodeAll(l);
    CompactedSealable(l, sectors, dataEnd);
    WholeSectors(sectors);
    WholeSectors(dataEnd);
  }

  lemma {:induction false} BlocksPrefix(f: Bytes, data: Bytes, p: nat)
    requires data <= f && SECTOR * p + SECTOR <= |data|
    ensures p < |Blocks(data)| && p < |Blocks(f)| && Blocks(f)[p] == Blocks(data)[p]
  {
    assert f[SECTOR * p..SECTOR * p + SECTOR] == data[SECTOR * p..SECTOR * p + SECTOR];
  }

  /** With its payload a prefix of the sealed file, every sector reads the same. */
  lemma {:induction false} SealedReads(f: Bytes, data: Bytes, l: seq<Mapping>, log: seq<Mapping>, sectors: nat,
                                       dataEnd: nat, s: int)
    requires HybridStore.Good(l, log, sectors, dataEnd) && data <= f && |data| == SECTOR * dataEnd
    ensures ReadAt(l, Blocks(f), s) == ReadAt(l, Blocks(data), s)
  {
    HybridStore.DataIsOwned(l, sectors, dataEnd, s);
    if Resolve(l, s).Data? {
      var p := Resolve(l, s).phys;
      assert SECTOR * p + SECTOR <= SECTOR * dataEnd;
      BlocksPrefix(f, data, p);
    }
  }

  /** The sealed file opens as a layer whose index is the mapping. */
  lemma {:induction false} SealedIndex(f: Bytes, index: Bytes, l: seq<Mapping>)
    requires |index| >= SPACE && SealedWith(f, index, EncodeAll(l)) && forall i :: 0 <= i < |l| ==> Encodable(l[i])
    ensures SealedPair(f, index) && LsmtFile.Opens(AsLayer(f, Blocks(f)))
    ensures LsmtFile.Loaded(AsLayer(f, Blocks(f)).entries) == l
  {
    hide EntriesOk;
    hide HeadersOk;
    DecodeEncodeAll(l);
    SealedPairOpens(f, index, Blocks(f));
  }

  /** The layer file a seal makes of a compacted writer: the layer reader opens it,
      its index is the writer's mapping, and it reads every sector as the writer. */
  ghost predicate SealedAs(f: Bytes, index: Bytes, l: seq<Mapping>, blocks: seq<Block>)
    requires |index| >= SPACE
  {
    && SealedPair(f, index) && LsmtFile.Opens(AsLayer(f, Blocks(f)))
    && LsmtFile.Loaded(AsLayer(f, Blocks(f)).entries) == l
    && forall s: int :: ReadAt(l, Blocks(f), s) == ReadAt(l, blocks, s)
  }

  lemma {:induction false} SealShows(f: Bytes, data: Bytes, index: Bytes, l: seq<Mapping>, blocks: seq<Block>,
                                     sectors: nat, dataEnd: nat)
    requires Holds(data, index, l, l, blocks, sectors, dataEnd) && HybridStore.AllBacked(l) && data <= f
    requires SealedWith(f, index, EncodeAll(l))
    ensures SealedAs(f, index, l, blocks)
  {
    hide SealedWith;
    hide SealedPair;
    EntriesEncodable(l, sectors, dataEnd);
    SealedIndex(f, index, l);
    forall s: int
      ensures ReadAt(l, Blocks(f), s) == ReadAt(l, blocks, s)
    {
      SealedReads(f, data, l, l, sectors, dataEnd, s);
    }
  }

  /** Any run of attempts at the seal ends with the same file over the same payload. */
  lemma {:induction false} SealRuns(data: Bytes, index: Bytes, userTag: Bytes, run: seq<Files>) returns (f: Bytes)
    requires CanSeal(data, index, userTag) && Storable(SealTarget(data, index, userTag))
    requires |run| > 0 && run[0] == Files(data, index)
    requires forall n :: 0 < n < |run| ==> Attempt(SealRecord(data, index, userTag), run[n - 1], run[n])
    ensures var t, last := SealRecord(data, index, userTag), run[|run| - 1];
      Accepts(t, last.data, last.index) && f == FinalData(t, last.data)
    ensures data <= f && SealedWith(f, index, index[SPACE..])
  {
    hide *;
    SealOpened(data, index, userTag);
    var t, last := SealRecord(data, index, userTag), run[|run| - 1];
    SealRecordAccepted(data, index, userTag);
    RecordOf(data, index, userTag);
    SealTransaction(t, run);
    AcceptedBytes(t, last.data, last.index);
    f := FinalData(t, last.data);
    assert data[..|data|] == data;
  }

  lemma {:induction false} SealOpened(data: Bytes, index: Bytes, userTag: Bytes)
    requires CanSeal(data, index, userTag)
    ensures Opened(data, index) && |data| >= SPACE && |index| >= SPACE
  {
  }

  lemma {:induction false} RecordOf(data: Bytes, index: Bytes, userTag: Bytes)
    requires Opened(data, index) && Storable(SealTarget(data, index, userTag))
    ensures var t := SealRecord(data, index, userTag);
      !t.grow && t.dataBytes == |data| && t.log == index[SPACE..] && Shaped(t)
  {
  }

  lemma {:induction false} AcceptedBytes(t: Intent, data: Bytes, index: Bytes)
    requires Accepts(t, data, index) && !t.grow
    ensures Shaped(t) && t.dataBytes <= |data| && t.dataBytes <= |FinalData(t, data)|
  {
    SealBytes(t, data);
  }

  /** A writer that compacted, and then a seal however often interrupted, end with
      that file. */
  lemma {:induction false} SealEndToEnd(data: Bytes, index: Bytes, l: seq<Mapping>, blocks: seq<Block>,
                                        sectors: nat, dataEnd: nat, userTag: Bytes, run: seq<Files>)
    requires Holds(data, index, l, l, blocks, sectors, dataEnd) && HybridStore.AllBacked(l)
    requires CanSeal(data, index, userTag) && Storable(SealTarget(data, index, userTag))
    requires |run| > 0 && run[0] == Files(data, index)
    requires forall n :: 0 < n < |run| ==> Attempt(SealRecord(data, index, userTag), run[n - 1], run[n])
    ensures var t, last := SealRecord(data, index, userTag), run[|run| - 1];
      Accepts(t, last.data, last.index) && SealedAs(FinalData(t, last.data), index, l, blocks)
  {
    var f := SealRuns(data, index, userTag, run);
    SealShows(f, data, index, l, blocks, sectors, dataEnd);
  }
}
