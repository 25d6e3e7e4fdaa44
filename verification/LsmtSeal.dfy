/** Sealing an LSMT upper: live payload is packed, and the result opens as a
    read-only layer with the same contents. */
module LsmtSeal {
  import opened Segments
  import opened SectorArray
  import opened LsmtReplay
  import opened LsmtEdit
  import opened LsmtLayer
  import LsmtFile

  /** DATA sectors in the first n segments. */
  function DataLength(segs: seq<Mapping>, n: nat): nat
    requires n <= |segs|
  {
    if n == 0 then 0 else DataLength(segs, n - 1) + if segs[n - 1].zeroed then 0 else segs[n - 1].length
  }

  /** Where sealing puts a sector: DATA follows the header in segment order with
      nothing in between. */
  function PackedAt(segs: seq<Mapping>, n: nat, s: int): Sector
    requires n <= |segs|
  {
    if n == 0 then Hole
    else if !segs[n - 1].Covers(s) then PackedAt(segs, n - 1, s)
    else if segs[n - 1].zeroed then Zero(0)
    else Data(0, DATA_START + DataLength(segs, n - 1) + (s - segs[n - 1].offset))
  }

  lemma {:induction false} PackedInside(segs: seq<Mapping>, n: nat, s: int)
    requires n <= |segs| && PackedAt(segs, n, s).Data?
    ensures PackedAt(segs, n, s).phys < DATA_START + DataLength(segs, n)
  {
    if !segs[n - 1].Covers(s) { PackedInside(segs, n - 1, s); }
  }

  /** After n segments: placement and payload. */
  ghost predicate Packed(segs: seq<Mapping>, n: nat, data: seq<Block>, packed: seq<Mapping>, out: seq<Block>,
                         sectors: nat)
    requires n <= |segs|
  {
    && |out| == DATA_START + DataLength(segs, n) && |packed| <= n && SegsFit(packed, sectors, |out|, |out|)
    && (forall s: int :: Resolve(packed, s) == PackedAt(segs, n, s))
    && (forall s: int :: Held(PackedAt(segs, n, s), out) == Held(Resolve(segs[..n], s), data))
  }

  lemma {:induction false} UncoveredYet(segs: seq<Mapping>, n: nat, k: nat, s: int)
    requires Sorted(segs) && n <= k < |segs| && s >= segs[k].offset
    ensures PackedAt(segs, n, s) == Hole
  {
    if n > 0 { UncoveredYet(segs, n - 1, k, s); }
  }

  lemma {:induction false} PackStep(segs: seq<Mapping>, n: nat, k: nat, data: seq<Block>, out: seq<Block>,
                                    next: seq<Block>)
    requires n < |segs| && k == n + 1 && |out| == DATA_START + DataLength(segs, n)
    requires !segs[n].zeroed ==> segs[n].moffset + segs[n].length <= |data|
    requires next == out + if segs[n].zeroed then [] else data[segs[n].moffset..segs[n].moffset + segs[n].length]
    requires forall s: int :: Held(PackedAt(segs, n, s), out) == Held(Resolve(segs[..n], s), data)
    ensures forall s: int :: Held(PackedAt(segs, k, s), next) == Held(Resolve(segs[..k], s), data)
  {
    forall s: int
      ensures Held(PackedAt(segs, k, s), next) == Held(Resolve(segs[..k], s), data)
    {
      assert segs[..k] == segs[..n] + [segs[n]];
      ResolveLast(segs[..n], segs[n], s);
      if !segs[n].Covers(s) && PackedAt(segs, n, s).Data? { PackedInside(segs, n, s); }
    }
  }

  /** The copy loop of seal. */
  method Pack(segs: seq<Mapping>, data: seq<Block>, ghost sectors: nat)
    returns (ok: bool, packed: seq<Mapping>, out: seq<Block>)
    requires SegsOk(segs, sectors, |data|)
    ensures ok ==> Packed(segs, |segs|, data, packed, out, sectors)
  {
    ok, packed, out := true, [], Zeros(DATA_START);
    var n: nat := 0;
    while n < |segs|
      invariant n <= |segs| && Packed(segs, n, data, packed, out, sectors)
    {
      ok := *;
      if !ok { return; }
      var m := segs[n].(moffset := |out|);
      var next := out + if segs[n].zeroed then [] else data[segs[n].moffset..segs[n].moffset + segs[n].length];
      forall s: int | m.Covers(s)
        ensures PackedAt(segs, n, s) == Hole
      {
        UncoveredYet(segs, n, n, s);
      }
      packed := InsertFused(packed, m, sectors, |next|, |next|);
      PackStep(segs, n, n + 1, data, out, next);
      out := next;
      n := n + 1;
    }
  }

  /** The file seal writes: header, payload, index and trailer, each padded. */
  function Sealed(packed: seq<Mapping>, out: seq<Block>, sectors: nat): LsmtFile.File {
    var indexOffset := PadSectors(|out|) * SECTOR;
    var trailer := LsmtFile.Region(false, true, true, false, true, indexOffset, |packed|, sectors * SECTOR);
    LsmtFile.File(indexOffset + PadBytes(16 * |packed|) + SPACE, trailer.(isHeader := true), trailer, packed, out)
  }

  /** The sealed file opens exactly when its index is within the read-only limit. */
  lemma {:induction false} SealedOpens(packed: seq<Mapping>, out: seq<Block>, sectors: nat)
    requires SegsFit(packed, sectors, |out|, |out|) && sectors <= MAX_OFFSET && |out| >= DATA_START
    ensures LsmtFile.Opens(Sealed(packed, out, sectors)) <==> |packed| <= MAX_INDEX
    ensures LsmtFile.Loaded(packed) == packed
  {
    var f := Sealed(packed, out, sectors);
    LsmtFile.LoadedSame(packed);
    var end := f.trailer.indexOffset / SECTOR;
    assert end == PadSectors(|out|);
    assert forall i :: 0 <= i < |packed| ==> LsmtFile.Placed(packed[i], f.trailer);
  }

  /** seal. The output holds exactly the live DATA sectors, opens whenever the
      upper's index is within the limit, and reads back as the upper read:
      uncovered, ZERO and DATA sectors stay what they were. */
  method Seal(l: Layer) returns (rc: Code, f: LsmtFile.File)
    requires l.Valid()
    ensures rc in {Ok, IoError} && (l.journalFailed ==> rc == IoError)
    ensures rc == Ok ==> (LsmtFile.Opens(f) <==> |f.entries| <= MAX_INDEX) && |f.entries| <= |l.segments|
    ensures rc == Ok ==> LsmtFile.Loaded(f.entries) == f.entries && Index(f.entries)
    ensures rc == Ok ==> |f.payload| == DATA_START + DataLength(l.segments, |l.segments|)
    ensures rc == Ok ==> forall s: int :: Held(Resolve(f.entries, s), f.payload) == ReadAt(l.segments, l.data, s)
    ensures rc == Ok ==> forall s: int :: SameKind(Resolve(f.entries, s), Resolve(l.segments, s))
  {
    f := Sealed([], [], 0);
    if l.journalFailed { return IoError, f; }
    var ok, packed, out := Pack(l.segments, l.data, l.sectors);
    if !ok { return IoError, f; }
    f := Sealed(packed, out, l.sectors);
    SealedOpens(packed, out, l.sectors);
    assert l.segments[..|l.segments|] == l.segments;
    forall s: int
      ensures SameKind(PackedAt(l.segments, |l.segments|, s), Resolve(l.segments, s))
    {
      PackedKind(l.segments, |l.segments|, s);
    }
    ok := *;
    rc := if ok then Ok else IoError;
  }

  predicate SameKind(a: Sector, b: Sector) {
    (a == Hole <==> b == Hole) && (a.Zero? <==> b.Zero?)
  }

  lemma {:induction false} PackedKind(segs: seq<Mapping>, n: nat, s: int)
    requires n <= |segs|
    ensures SameKind(PackedAt(segs, n, s), Resolve(segs[..n], s))
  {
    if n > 0 {
      PackedKind(segs, n - 1, s);
      assert segs[..n] == segs[..n - 1] + [segs[n - 1]];
      ResolveLast(segs[..n - 1], segs[n - 1], s);
    }
  }
}
