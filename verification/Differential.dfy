/** Differential layers over a shared filesystem image: each layer holds what its
    build changed, and the stack of layers reads back as the image. */
module Differential {
  import opened Segments
  import opened SectorArray
  import opened LayerMerge
  import MergedRead
  import LsmtFile

  // ----- differential ---------------------------------------------------------------

  /** Payload of the current input: in order and tagged as remote. */
  predicate RemoteEntry(m: Mapping, sectors: nat) {
    m.length > 0 && m.End() <= sectors && m.tag == 1 && !m.zeroed
  }

  ghost predicate RemoteOk(remote: seq<Mapping>, sectors: nat) {
    LsmtFile.InOrder(remote) && forall i :: 0 <= i < |remote| ==> RemoteEntry(remote[i], sectors)
  }

  predicate Unchanged(raw: seq<Block>, previous: Option<seq<Block>>, s: nat)
    requires s < |raw| && (previous.Some? ==> |previous.value| == |raw|)
  {
    s != 0 && previous.Some? && raw[s] == previous.value[s]
  }

  /** What a layer records for a sector: where its payload is in the input, or its
      own contents if the sector is not known to be unchanged. */
  function DiffAt(raw: seq<Block>, previous: Option<seq<Block>>, remote: seq<Mapping>, s: nat): Sector
    requires s < |raw| && (previous.Some? ==> |previous.value| == |raw|)
  {
    if Resolve(remote, s) != Hole then Resolve(remote, s)
    else if Unchanged(raw, previous, s) then Hole
    else if raw[s] == ZERO_BLOCK then Zero(0)
    else Data(0, s)
  }

  /** The one-sector mapping appended for a sector. */
  function Single(x: Sector, s: nat): Mapping
    requires x != Hole
  {
    match x
    case Zero(tag) => Mapping(s, 1, s, true, tag)
    case Data(tag, p) => Mapping(s, 1, p, false, tag)
  }

  /** Appends what a layer records for sector n. */
  function Extend(l: seq<Mapping>, x: Sector, n: nat): seq<Mapping> {
    if x == Hole then l else Push(l, Single(x, n))
  }

  /** The index after n sectors, coalesced as it grows. */
  function DiffIndex(raw: seq<Block>, previous: Option<seq<Block>>, remote: seq<Mapping>, n: nat): seq<Mapping>
    requires n <= |raw| && (previous.Some? ==> |previous.value| == |raw|)
  {
    if n == 0 then [] else Extend(DiffIndex(raw, previous, remote, n - 1), DiffAt(raw, previous, remote, n - 1), n - 1)
  }

  lemma {:induction false} ExtendMeans(l: seq<Mapping>, x: Sector, n: nat, s: int)
    requires Index(l) && Within(l, 0, n) && Resolve(l, n) == Hole
    ensures Index(Extend(l, x, n)) && Within(Extend(l, x, n), 0, n + 1)
    ensures Resolve(Extend(l, x, n), s) == if s == n then x else Resolve(l, s)
  {
    if x != Hole {
      PushIndex(l, Single(x, n), 0);
      ResolvePush(l, Single(x, n), s);
    }
  }

  /** An index that says what the differential of the first n sectors says; its
      ZERO placeholders are the sectors themselves. */
  ghost predicate DiffOf(l: seq<Mapping>, raw: seq<Block>, previous: Option<seq<Block>>, remote: seq<Mapping>, n: nat)
    requires n <= |raw| && (previous.Some? ==> |previous.value| == |raw|)
  {
    && Index(l) && Within(l, 0, n)
    && (forall i :: 0 <= i < |l| && l[i].zeroed && l[i].tag == 0 ==> l[i].moffset == l[i].offset)
    && forall s: int :: Resolve(l, s) == if 0 <= s < n then DiffAt(raw, previous, remote, s) else Hole
  }

  lemma {:induction false} DiffIndexAt(raw: seq<Block>, previous: Option<seq<Block>>, remote: seq<Mapping>, n: nat,
                                       s: int)
    requires n <= |raw| && (previous.Some? ==> |previous.value| == |raw|)
    ensures var l := DiffIndex(raw, previous, remote, n);
      && Index(l) && Within(l, 0, n) && Resolve(l, n) == Hole
      && Resolve(l, s) == if 0 <= s < n then DiffAt(raw, previous, remote, s) else Hole
  {
    var l := DiffIndex(raw, previous, remote, n);
    if n > 0 {
      var rest := DiffIndex(raw, previous, remote, n - 1);
      DiffIndexAt(raw, previous, remote, n - 1, s);
      ExtendMeans(rest, DiffAt(raw, previous, remote, n - 1), n - 1, s);
    }
    ResolveOutside(l, 0, n, n);
  }

  lemma {:induction false} DiffZeros(raw: seq<Block>, previous: Option<seq<Block>>, remote: seq<Mapping>, n: nat,
                                     i: nat)
    requires n <= |raw| && (previous.Some? ==> |previous.value| == |raw|) && i < |DiffIndex(raw, previous, remote, n)|
    ensures var m := DiffIndex(raw, previous, remote, n)[i]; m.zeroed ==> m.moffset == m.offset
  {
    if n > 0 && i < |DiffIndex(raw, previous, remote, n - 1)| { DiffZeros(raw, previous, remote, n - 1, i); }
  }

  lemma {:induction false} DiffIndexMeans(raw: seq<Block>, previous: Option<seq<Block>>, remote: seq<Mapping>, n: nat)
    requires n <= |raw| && (previous.Some? ==> |previous.value| == |raw|)
    ensures DiffOf(DiffIndex(raw, previous, remote, n), raw, previous, remote, n)
  {
    forall s: int { DiffIndexAt(raw, previous, remote, n, s); }
    forall i | 0 <= i < |DiffIndex(raw, previous, remote, n)| { DiffZeros(raw, previous, remote, n, i); }
  }

  lemma {:induction false} DiffIndexGrows(raw: seq<Block>, previous: Option<seq<Block>>, remote: seq<Mapping>, n: nat,
                                          m: nat)
    requires n <= m <= |raw| && (previous.Some? ==> |previous.value| == |raw|)
    ensures |DiffIndex(raw, previous, remote, n)| <= |DiffIndex(raw, previous, remote, m)|
    decreases m
  {
    if n < m { DiffIndexGrows(raw, previous, remote, n, m - 1); }
  }

  /** Appending keeps where the first mapping starts and its tag. */
  lemma {:induction false} ExtendFirst(l: seq<Mapping>, x: Sector, n: nat)
    requires |l| > 0
    ensures var e := Extend(l, x, n); |e| > 0 && e[0].offset == l[0].offset && e[0].tag == l[0].tag
  {
  }

  lemma {:induction false} ExtendEmpty(x: Sector)
    requires x != Hole
    ensures var e := Extend([], x, 0); |e| == 1 && e[0].offset == 0 && e[0].tag == x.tag
  {
  }

  /** The first mapping starts at sector 0 with the local tag, unless the input
      claims sector 0. */
  lemma {:induction false} Anchored(raw: seq<Block>, previous: Option<seq<Block>>, remote: seq<Mapping>, n: nat)
    returns (l: seq<Mapping>)
    requires 0 < n <= |raw| && (previous.Some? ==> |previous.value| == |raw|)
    requires Resolve(remote, 0) == Hole || (Resolve(remote, 0).Data? && Resolve(remote, 0).tag == 1)
    ensures l == DiffIndex(raw, previous, remote, n)
    ensures |l| > 0 && l[0].offset == 0 && (l[0].tag == 0 <==> Resolve(remote, 0) == Hole)
  {
    var x := DiffAt(raw, previous, remote, n - 1);
    if n == 1 {
      ExtendEmpty(x);
      l := Extend([], x, 0);
    } else {
      var rest := Anchored(raw, previous, remote, n - 1);
      ExtendFirst(rest, x, n - 1);
      l := Extend(rest, x, n - 1);
    }
  }

  method CheckRemote(remote: seq<Mapping>, sectors: nat) returns (ok: bool)
    ensures ok <==> RemoteOk(remote, sectors)
  {
    var end: nat := 0;
    var i: nat := 0;
    while i < |remote|
      invariant i <= |remote| && end == (if i == 0 then 0 else remote[i - 1].End())
      invariant forall k :: 0 <= k < i ==> RemoteEntry(remote[k], sectors)
      invariant forall k :: 0 < k < i ==> remote[k - 1].End() <= remote[k].offset
    {
      if remote[i].offset < end || !RemoteEntry(remote[i], sectors) { return false; }
      end := remote[i].End();
      i := i + 1;
    }
    ok := true;
  }

  lemma {:induction false} RemoteMeans(remote: seq<Mapping>, sectors: nat)
    requires RemoteOk(remote, sectors)
    ensures Sorted(remote)
    ensures forall s: int :: Resolve(remote, s) == Hole || (Resolve(remote, s).Data? && Resolve(remote, s).tag == 1)
  {
    LsmtFile.InOrderSorted(remote);
    forall s: int | Resolve(remote, s) != Hole
      ensures Resolve(remote, s).Data? && Resolve(remote, s).tag == 1
    {
      var k := ResolveWitness(remote, s);
    }
  }

  /** The cursor over the input's mappings at a sector. */
  lemma {:induction false} CursorMeans(remote: seq<Mapping>, k: nat, s: int)
    requires Sorted(remote) && k <= |remote| && (forall i :: 0 <= i < k ==> remote[i].End() <= s)
    requires (k < |remote| ==> remote[k].End() > s)
    ensures Resolve(remote, s) == if k < |remote| && remote[k].offset <= s then remote[k].At(s) else Hole
  {
    if k < |remote| && remote[k].offset <= s {
      ResolveAt(remote, k, s);
    } else {
      forall i | 0 <= i < |remote|
        ensures !remote[i].Covers(s)
      {
        if i > k { assert remote[k].End() <= remote[i].offset; }
      }
      ResolveNone(remote, s);
    }
  }

  /** What is appended for a sector, with the cursor at k. */
  method EntryFor(raw: seq<Block>, previous: Option<seq<Block>>, remote: seq<Mapping>, k: nat, s: nat)
    returns (e: Option<Mapping>)
    requires s < |raw| && (previous.Some? ==> |previous.value| == |raw|) && RemoteOk(remote, |raw|) && Sorted(remote)
    requires k <= |remote| && (forall i :: 0 <= i < k ==> remote[i].End() <= s)
    requires (k < |remote| ==> remote[k].End() > s)
    ensures var x := DiffAt(raw, previous, remote, s); e == if x == Hole then None else Some(Single(x, s))
  {
    CursorMeans(remote, k, s);
    e := None;
    if k < |remote| && remote[k].offset <= s {
      var m := remote[k];
      assert RemoteEntry(m, |raw|);
      e := Some(Mapping(s, 1, m.moffset + (s - m.offset), false, 1));
    } else if s == 0 || previous.None? || raw[s] != previous.value[s] {
      e := Some(Mapping(s, 1, s, raw[s] == ZERO_BLOCK, 0));
    }
  }

  /** The sector scan with its cursor over the input's payload. */
  method ScanDiff(raw: seq<Block>, previous: Option<seq<Block>>, remote: seq<Mapping>) returns (r: Option<seq<Mapping>>)
    requires (previous.Some? ==> |previous.value| == |raw|) && RemoteOk(remote, |raw|)
    ensures r.Some? <==> |DiffIndex(raw, previous, remote, |raw|)| <= MAX_INDEX
    ensures r.Some? ==> r.value == DiffIndex(raw, previous, remote, |raw|)
  {
    RemoteMeans(remote, |raw|);
    var out: seq<Mapping> := [];
    var k: nat := 0;
    var s: nat := 0;
    while s < |raw|
      invariant s <= |raw| && k <= |remote| && out == DiffIndex(raw, previous, remote, s) && |out| <= MAX_INDEX
      invariant forall i :: 0 <= i < k ==> remote[i].End() <= s
    {
      while k < |remote| && remote[k].End() <= s
        invariant k <= |remote| && forall i :: 0 <= i < k ==> remote[i].End() <= s
      {
        k := k + 1;
      }
      var e := EntryFor(raw, previous, remote, k, s);
      if e.Some? { out := Push(out, e.value); }
      s := s + 1;
      if |out| > MAX_INDEX {
        DiffIndexGrows(raw, previous, remote, s, |raw|);
        return None;
      }
    }
    r := Some(out);
  }

  /** differential: the scan, and the check that local sector 0 comes first. */
  method MakeDiff(raw: seq<Block>, previous: Option<seq<Block>>, remote: seq<Mapping>) returns (r: Option<seq<Mapping>>)
    requires previous.Some? ==> |previous.value| == |raw|
    ensures r.Some? <==>
            && RemoteOk(remote, |raw|) && |raw| > 0 && Resolve(remote, 0) == Hole
            && |DiffIndex(raw, previous, remote, |raw|)| <= MAX_INDEX
    ensures r.Some? ==> r.value == DiffIndex(raw, previous, remote, |raw|) && |r.value| > 0 && r.value[0].tag == 0
  {
    var ok := CheckRemote(remote, |raw|);
    if !ok { return None; }
    r := ScanDiff(raw, previous, remote);
    if r.None? { return; }
    RemoteMeans(remote, |raw|);
    if |raw| > 0 { ghost var anchored := Anchored(raw, previous, remote, |raw|); }
    var out := r.value;
    if |out| == 0 || out[0].offset != 0 || out[0].tag != 0 { r := None; }
  }

  // ----- the warp layer file ------------------------------------------------------------

  predicate WarpEntry(m: Mapping, end: nat, sectors: nat, inputSectors: nat) {
    && m.tag <= 1 && 0 < m.length <= MAX_LENGTH && m.offset < MAX_OFFSET && end <= m.offset
    && m.offset <= sectors && m.length <= sectors - m.offset
    && m.moffset <= MAX_MOFFSET && (!m.zeroed ==> m.length <= MAX_MOFFSET - m.moffset)
    && (m.tag == 0 && !m.zeroed ==> m.moffset <= inputSectors && m.length <= inputSectors - m.moffset)
  }

  /** A sector of the packed index against the one it came from: local DATA moved
      into the metadata file, everything else unchanged. */
  predicate Moved(x: Sector, y: Sector, raw: seq<Block>, meta: seq<Block>) {
    if x.Data? && x.tag == 0
    then y.Data? && y.tag == 0 && DATA_START <= y.phys < |meta| && x.phys < |raw| && meta[y.phys] == raw[x.phys]
    else y == x
  }

  ghost predicate PackedTo(maps: seq<Mapping>, n: nat, segs: seq<Mapping>, raw: seq<Block>, meta: seq<Block>)
    requires n <= |maps|
  {
    && |segs| == n && |meta| >= DATA_START
    && (forall i :: 0 <= i < n ==> segs[i] == maps[i].(moffset := segs[i].moffset))
    && (forall i :: 0 <= i < n && segs[i].tag == 0 ==> DATA_START <= segs[i].moffset && segs[i].Mend() <= |meta|)
    && (forall i :: 0 <= i < n && segs[i].tag != 0 ==> segs[i] == maps[i])
    && (forall s: int :: Moved(Resolve(maps[..n], s), Resolve(segs, s), raw, meta))
  }

  lemma {:induction false} PackMore(maps: seq<Mapping>, n: nat, segs: seq<Mapping>, raw: seq<Block>, meta: seq<Block>,
                                    m: Mapping, meta': seq<Block>)
    requires n < |maps| && PackedTo(maps, n, segs, raw, meta)
    requires maps[n].tag == 0 && !maps[n].zeroed ==> maps[n].moffset + maps[n].length <= |raw|
    requires m == if maps[n].tag == 0 then maps[n].(moffset := |meta|) else maps[n]
    requires meta' == meta + if maps[n].tag != 0 || maps[n].zeroed then []
                             else raw[maps[n].moffset..maps[n].moffset + maps[n].length]
    ensures PackedTo(maps, n + 1, segs + [m], raw, meta')
  {
    var next := maps[..n + 1];
    assert next == maps[..n] + [maps[n]];
    forall s: int
      ensures Moved(Resolve(next, s), Resolve(segs + [m], s), raw, meta')
    {
      ResolveLast(maps[..n], maps[n], s);
      ResolveLast(segs, m, s);
      assert Moved(Resolve(maps[..n], s), Resolve(segs, s), raw, meta);
    }
  }

  /** What the warp writer accepts: a volume and a metadata input of such sizes. */
  ghost predicate Packable(maps: seq<Mapping>, sectors: nat, inputSectors: nat) {
    LsmtFile.InOrder(maps) && forall i :: 0 <= i < |maps| ==> WarpEntry(maps[i], 0, sectors, inputSectors)
  }

  predicate HasLocal(maps: seq<Mapping>) { exists i :: 0 <= i < |maps| && maps[i].tag == 0 }

  /** The validation and packing loop of write_lsmt_warp_layer. */
  method PackLoop(maps: seq<Mapping>, sectors: nat, raw: seq<Block>)
    returns (ok: bool, segs: seq<Mapping>, meta: seq<Block>)
    ensures ok <==> Packable(maps, sectors, |raw|)
    ensures ok ==> PackedTo(maps, |maps|, segs, raw, meta) && |meta| <= DATA_START + sectors
  {
    ok, segs, meta := true, [], Zeros(DATA_START);
    var end: nat := 0;
    var n: nat := 0;
    while n < |maps|
      invariant n <= |maps| && PackedTo(maps, n, segs, raw, meta) && end == (if n == 0 then 0 else maps[n - 1].End())
      invariant forall k :: 0 < k < n ==> maps[k - 1].End() <= maps[k].offset
      invariant forall k :: 0 <= k < n ==> WarpEntry(maps[k], 0, sectors, |raw|)
      invariant end <= sectors && |meta| <= DATA_START + end
    {
      if !WarpEntry(maps[n], end, sectors, |raw|) { return false, segs, meta; }
      end := maps[n].End();
      segs, meta := PackOne(maps, n, sectors, segs, raw, meta);
      n := n + 1;
    }
  }

  method PackOne(maps: seq<Mapping>, n: nat, ghost sectors: nat, segs: seq<Mapping>, raw: seq<Block>, meta: seq<Block>)
    returns (segs': seq<Mapping>, meta': seq<Block>)
    requires n < |maps| && PackedTo(maps, n, segs, raw, meta) && WarpEntry(maps[n], 0, sectors, |raw|)
    ensures PackedTo(maps, n + 1, segs', raw, meta') && |meta'| <= |meta| + maps[n].length
  {
    var m := maps[n];
    meta' := meta + if m.tag == 0 && !m.zeroed then raw[m.moffset..m.moffset + m.length] else [];
    var moved := if m.tag == 0 then m.(moffset := |meta|) else m;
    PackMore(maps, n, segs, raw, meta, moved, meta');
    segs' := segs + [moved];
  }

  /** write_lsmt_warp_layer: the index with local DATA packed, and the metadata
      file's sectors, from a metadata input of any size. Refuses a bad size, a bad mapping and remote DATA without a
      local entry; what it accepts always fits a file, so its two overflow checks
      never fire. */
  method PackWarp(maps: seq<Mapping>, sectors: nat, raw: seq<Block>) returns (r: Option<(seq<Mapping>, seq<Block>)>)
    ensures r.Some? <==>
            && 0 < sectors <= MAX_OFFSET && |maps| <= MAX_INDEX
            && Packable(maps, sectors, |raw|) && (|maps| > 0 ==> HasLocal(maps))
    ensures r.Some? ==> PackedTo(maps, |maps|, r.value.0, raw, r.value.1)
    ensures r.Some? ==> SECTOR * |r.value.1| + 16 * |maps| + SPACE <= MAX_FILE
  {
    if sectors == 0 || sectors > MAX_OFFSET || |maps| > MAX_INDEX { return None; }
    var ok, segs, meta := PackLoop(maps, sectors, raw);
    if !ok || (|maps| > 0 && !HasLocal(maps)) { return None; }
    r := Some((segs, meta));
  }

  // ----- opening it ------------------------------------------------------------------------

  function MinTag(l: seq<Mapping>): (t: nat)
    ensures forall i :: 0 <= i < |l| ==> t <= l[i].tag
    ensures t == 255 || exists i :: 0 <= i < |l| && l[i].tag == t
  {
    if |l| == 0 then 255 else
      var rest := MinTag(l[..|l| - 1]);
      if l[|l| - 1].tag < rest then l[|l| - 1].tag else rest
  }

  /** The input's payload follows the metadata file in one address space. */
  function Translate(m: Mapping, low: nat, base: nat): Mapping
    requires low <= m.tag
  {
    m.(tag := 0, moffset := if !m.zeroed && m.tag - low == 1 then m.moffset + base else m.moffset)
  }

  predicate WarpPlaced(m: Mapping, low: nat, sectors: nat, indexSector: nat, targetSectors: nat)
    requires low <= m.tag
  {
    && m.tag - low <= 1 && m.length > 0 && m.End() <= MAX_OFFSET && m.End() <= sectors
    && (m.zeroed
        || (if m.tag - low == 1 then m.moffset <= targetSectors && m.length <= targetSectors - m.moffset
            else DATA_START <= m.moffset < indexSector && m.moffset + m.length <= indexSector))
  }

  ghost predicate WarpOpens(l: seq<Mapping>, sectors: nat, indexSector: nat, targetSectors: nat) {
    LsmtFile.InOrder(l) && forall i :: 0 <= i < |l| ==> WarpPlaced(l[i], MinTag(l), sectors, indexSector, targetSectors)
  }

  function TranslateAll(l: seq<Mapping>, low: nat, base: nat): (r: seq<Mapping>)
    requires forall i :: 0 <= i < |l| ==> low <= l[i].tag
    ensures |r| == |l| && forall i :: 0 <= i < |l| ==> r[i] == Translate(l[i], low, base)
  {
    seq(|l|, i requires 0 <= i < |l| => Translate(l[i], low, base))
  }

  /** open_warp, from the loaded index on. */
  method OpenWarp(l: seq<Mapping>, sectors: nat, indexSector: nat, base: nat, targetSectors: nat)
    returns (r: Option<seq<Mapping>>)
    ensures r.Some? <==> WarpOpens(l, sectors, indexSector, targetSectors)
    ensures r.Some? ==> r.value == TranslateAll(l, MinTag(l), base)
  {
    var i: nat := 1;
    while i < |l|
      invariant i > 0 && forall k :: 0 < k < i && k < |l| ==> l[k - 1].End() <= l[k].offset
    {
      if l[i - 1].End() > l[i].offset { return None; }
      i := i + 1;
    }
    var low := MinTag(l);
    var out: seq<Mapping> := [];
    i := 0;
    while i < |l|
      invariant i <= |l| && |out| == i
      invariant forall k :: 0 <= k < i ==>
                WarpPlaced(l[k], low, sectors, indexSector, targetSectors) && out[k] == Translate(l[k], low, base)
    {
      if !WarpPlaced(l[i], low, sectors, indexSector, targetSectors) { return None; }
      out := out + [Translate(l[i], low, base)];
      i := i + 1;
    }
    assert out == TranslateAll(l, low, base);
    r := Some(out);
  }

  /** What a translated sector is. */
  function TranslateSector(x: Sector, base: nat): Sector {
    match x
    case Hole => Hole
    case Zero(_) => Zero(0)
    case Data(tag, p) => Data(0, if tag == 1 then p + base else p)
  }

  /** With a local entry present, every sector is translated by its own tag. */
  lemma {:induction false} TranslateMeans(l: seq<Mapping>, base: nat, s: int)
    requires (forall i :: 0 <= i < |l| ==> l[i].tag <= 1)
    ensures Resolve(TranslateAll(l, 0, base), s) == TranslateSector(Resolve(l, s), base)
  {
    if |l| > 0 {
      var rest, m := l[..|l| - 1], l[|l| - 1];
      TranslateMeans(rest, base, s);
      var t := TranslateAll(l, 0, base);
      assert t == TranslateAll(rest, 0, base) + [Translate(m, 0, base)];
      assert l == rest + [m];
      ResolveLast(rest, m, s);
      ResolveLast(TranslateAll(rest, 0, base), Translate(m, 0, base), s);
    }
  }

  /** Tags are read relative to the lowest one present. Every sector is translated
      by its own tag exactly when a local entry is present to hold the lowest tag
      at zero, or no entry has payload. */
  lemma {:induction false} AnchorNeeded(l: seq<Mapping>, base: nat)
    requires Index(l) && base > 0 && forall i :: 0 <= i < |l| ==> l[i].tag <= 1
    ensures (forall s: int :: Resolve(TranslateAll(l, MinTag(l), base), s) == TranslateSector(Resolve(l, s), base))
            <==> HasLocal(l) || forall i :: 0 <= i < |l| ==> l[i].zeroed
  {
    if HasLocal(l) {
      assert MinTag(l) == 0;
      forall s: int
        ensures Resolve(TranslateAll(l, MinTag(l), base), s) == TranslateSector(Resolve(l, s), base)
      {
        TranslateMeans(l, base, s);
      }
    } else if forall i :: 0 <= i < |l| ==> l[i].zeroed {
      forall s: int
        ensures Resolve(TranslateAll(l, MinTag(l), base), s) == TranslateSector(Resolve(l, s), base)
      {
        assert TranslateAll(l, MinTag(l), base) == TranslateAll(l, 0, base);
        TranslateMeans(l, base, s);
      }
    } else {
      var i :| 0 <= i < |l| && !l[i].zeroed;
      UnanchoredMoves(l, base, i);
    }
  }

  /** Without a local entry remote payload is looked up in the metadata file. */
  lemma {:induction false} UnanchoredMoves(l: seq<Mapping>, base: nat, i: nat)
    requires Index(l) && base > 0 && (forall k :: 0 <= k < |l| ==> l[k].tag <= 1)
    requires !HasLocal(l) && i < |l| && !l[i].zeroed
    ensures Resolve(TranslateAll(l, MinTag(l), base), l[i].offset) != TranslateSector(Resolve(l, l[i].offset), base)
  {
    var t := TranslateAll(l, MinTag(l), base);
    assert MinTag(l) == 1;
    assert Index(t) && t[i].offset == l[i].offset;
    ResolveAt(t, i, l[i].offset);
    ResolveAt(l, i, l[i].offset);
  }

  /** The reader accepts such a layer: one remote sector, at any capacity and
      index position that hold it. */
  lemma {:induction false} UnanchoredOpens(sectors: nat, indexSector: nat, targetSectors: nat, base: nat)
    requires sectors >= 9 && indexSector > 20 && base > 0
    ensures var l := [Mapping(8, 1, 20, false, 1)];
      && Index(l) && !HasLocal(l) && WarpOpens(l, sectors, indexSector, targetSectors)
      && Resolve(TranslateAll(l, MinTag(l), base), 8) != TranslateSector(Resolve(l, 8), base)
  {
    var l := [Mapping(8, 1, 20, false, 1)];
    assert l[..0] == [] && MinTag(l[..0]) == 255 && MinTag(l) == 1;
    UnanchoredMoves(l, base, 0);
  }

  // ----- the stack ---------------------------------------------------------------------

  /** A layer that gives every sector the image has, except those unchanged since
      the previous image. */
  ghost predicate LayerOf(l: seq<Mapping>, payload: seq<Block>, raw: seq<Block>, previous: Option<seq<Block>>)
    requires previous.Some? ==> |previous.value| == |raw|
  {
    Index(l) && forall s: int :: 0 <= s < |raw| ==> SectorRight(Resolve(l, s), payload, raw, previous, s)
  }

  predicate SectorRight(x: Sector, payload: seq<Block>, raw: seq<Block>, previous: Option<seq<Block>>, s: nat)
    requires s < |raw| && (previous.Some? ==> |previous.value| == |raw|)
  {
    if x == Hole then Unchanged(raw, previous, s) else Held(x, payload) == raw[s]
  }

  /** The input holds what the image has where the builder says so. */
  ghost predicate RemoteTrue(remote: seq<Mapping>, target: seq<Block>, raw: seq<Block>) {
    forall s: int :: 0 <= s < |raw| && Resolve(remote, s).Data? ==>
              Resolve(remote, s).phys < |target| && target[Resolve(remote, s).phys] == raw[s]
  }

  /** The metadata file, padded to whole sectors, then the input. */
  function WarpPayload(meta: seq<Block>, base: nat, target: seq<Block>): seq<Block>
    requires |meta| <= base
  {
    meta + Zeros(base - |meta|) + target
  }

  lemma {:induction false} DiffToLayer(raw: seq<Block>, previous: Option<seq<Block>>, remote: seq<Mapping>,
                                       target: seq<Block>,
                                       y: Sector, meta: seq<Block>, base: nat, s: nat)
    requires s < |raw| && (previous.Some? ==> |previous.value| == |raw|) && RemoteTrue(remote, target, raw)
    requires |meta| <= base
    requires Resolve(remote, s) == Hole || (Resolve(remote, s).Data? && Resolve(remote, s).tag == 1)
    requires Moved(DiffAt(raw, previous, remote, s), y, raw, meta)
    ensures SectorRight(TranslateSector(y, base), WarpPayload(meta, base, target), raw, previous, s)
  {
  }

  lemma {:induction false} EntryPackable(m: Mapping, raw: seq<Block>, previous: Option<seq<Block>>,
                                         remote: seq<Mapping>, target: seq<Block>)
    requires 0 < m.length <= MAX_LENGTH && m.End() <= |raw| <= MAX_OFFSET && |target| <= MAX_MOFFSET
    requires (m.zeroed && m.tag == 0 ==> m.moffset == m.offset)
    requires (previous.Some? ==> |previous.value| == |raw|) && RemoteTrue(remote, target, raw)
    requires forall s: int :: Resolve(remote, s) == Hole || (Resolve(remote, s).Data? && Resolve(remote, s).tag == 1)
    requires m.At(m.offset) == DiffAt(raw, previous, remote, m.offset)
    requires m.At(m.End() - 1) == DiffAt(raw, previous, remote, m.End() - 1)
    ensures WarpEntry(m, 0, |raw|, |raw|) && (m.tag == 1 && !m.zeroed ==> m.moffset + m.length <= |target|)
  {
  }

  /** Everything a differential contains is within the image or the input. */
  lemma {:induction false} DiffPackable(raw: seq<Block>, previous: Option<seq<Block>>, remote: seq<Mapping>,
                                        target: seq<Block>, l: seq<Mapping>)
    requires (previous.Some? ==> |previous.value| == |raw|) && RemoteTrue(remote, target, raw)
    requires RemoteOk(remote, |raw|)
    requires |raw| <= MAX_OFFSET && |target| <= MAX_MOFFSET && DiffOf(l, raw, previous, remote, |raw|)
    ensures Packable(l, |raw|, |raw|)
    ensures forall i :: 0 <= i < |l| && l[i].tag == 1 && !l[i].zeroed ==> l[i].moffset + l[i].length <= |target|
  {
    RemoteMeans(remote, |raw|);
    forall i | 0 <= i < |l|
      ensures WarpEntry(l[i], 0, |raw|, |raw|)
      ensures (l[i].tag == 1 && !l[i].zeroed ==> l[i].moffset + l[i].length <= |target|)
    {
      ResolveAt(l, i, l[i].offset);
      ResolveAt(l, i, l[i].End() - 1);
      EntryPackable(l[i], raw, previous, remote, target);
    }
  }

  /** What the warp writer packs, the warp reader opens. */
  lemma {:induction false} PackedOpens(maps: seq<Mapping>, segs: seq<Mapping>, raw: seq<Block>, meta: seq<Block>,
                                       sectors: nat, targetSectors: nat)
    requires Packable(maps, sectors, |raw|) && sectors <= MAX_OFFSET
    requires HasLocal(maps) && PackedTo(maps, |maps|, segs, raw, meta)
    requires forall i :: 0 <= i < |maps| && maps[i].tag == 1 && !maps[i].zeroed ==>
              maps[i].moffset + maps[i].length <= targetSectors
    ensures MinTag(segs) == 0 && WarpOpens(segs, sectors, |meta|, targetSectors)
  {
    var k :| 0 <= k < |maps| && maps[k].tag == 0;
    assert segs[k].tag == 0;
    forall i | 0 <= i < |segs|
      ensures WarpPlaced(segs[i], 0, sectors, |meta|, targetSectors)
    {
      assert WarpEntry(maps[i], 0, sectors, |raw|);
      assert segs[i] == maps[i].(moffset := segs[i].moffset);
    }
    forall i | 0 < i < |segs|
      ensures segs[i - 1].End() <= segs[i].offset
    {
      assert maps[i - 1].End() <= maps[i].offset;
    }
  }

  /** One layer of the conversion: differential, packing, and opening the result
      against its input. It fails only for a bad or anchor-claiming input mapping
      or an index over the limit. */
  method BuildLayer(raw: seq<Block>, previous: Option<seq<Block>>, remote: seq<Mapping>, target: seq<Block>)
    returns (r: Option<(seq<Mapping>, seq<Block>)>)
    requires (previous.Some? ==> |previous.value| == |raw|) && RemoteTrue(remote, target, raw)
    requires |raw| <= MAX_OFFSET && |target| <= MAX_MOFFSET
    ensures r.Some? <==>
            && RemoteOk(remote, |raw|) && |raw| > 0 && Resolve(remote, 0) == Hole
            && |DiffIndex(raw, previous, remote, |raw|)| <= MAX_INDEX
    ensures r.Some? ==> LayerOf(r.value.0, r.value.1, raw, previous)
  {
    var diff := MakeDiff(raw, previous, remote);
    if diff.None? { return None; }
    DiffIndexMeans(raw, previous, remote, |raw|);
    DiffPackable(raw, previous, remote, target, diff.value);
    assert HasLocal(diff.value) by { assert diff.value[0].tag == 0; }
    var packed := PackWarp(diff.value, |raw|, raw);
    var (segs, meta) := packed.value;
    var bytes := SECTOR * |meta| + 16 * |segs| + SPACE;
    var base := (bytes + SECTOR - 1) / SECTOR;
    PackedOpens(diff.value, segs, raw, meta, |raw|, |target|);
    var l := OpenWarp(segs, |raw|, |meta|, base, |target|);
    LayerBuilt(raw, previous, remote, target, diff.value, segs, meta, base);
    r := Some((l.value, WarpPayload(meta, base, target)));
  }

  lemma {:induction false} TranslatedIndex(diff: seq<Mapping>, segs: seq<Mapping>, base: nat)
    requires Index(diff) && |segs| == |diff|
    requires forall i :: 0 <= i < |diff| ==> segs[i] == diff[i].(moffset := segs[i].moffset)
    ensures Index(TranslateAll(segs, 0, base))
  {
    var l := TranslateAll(segs, 0, base);
    assert forall i :: 0 <= i < |l| ==> l[i].offset == diff[i].offset && l[i].length == diff[i].length;
  }

  lemma {:induction false} LayerBuilt(raw: seq<Block>, previous: Option<seq<Block>>, remote: seq<Mapping>,
                                      target: seq<Block>, diff: seq<Mapping>, segs: seq<Mapping>, meta: seq<Block>,
                                      base: nat)
    requires (previous.Some? ==> |previous.value| == |raw|) && RemoteTrue(remote, target, raw)
    requires RemoteOk(remote, |raw|) && |meta| <= base
    requires DiffOf(diff, raw, previous, remote, |raw|) && PackedTo(diff, |diff|, segs, raw, meta)
    requires forall i :: 0 <= i < |segs| ==> segs[i].tag <= 1
    ensures LayerOf(TranslateAll(segs, 0, base), WarpPayload(meta, base, target), raw, previous)
  {
    RemoteMeans(remote, |raw|);
    TranslatedIndex(diff, segs, base);
    assert diff[..|diff|] == diff;
    var l := TranslateAll(segs, 0, base);
    forall s: int | 0 <= s < |raw|
      ensures SectorRight(Resolve(l, s), WarpPayload(meta, base, target), raw, previous, s)
    {
      TranslateMeans(segs, base, s);
      assert Moved(Resolve(diff, s), Resolve(segs, s), raw, meta);
      DiffToLayer(raw, previous, remote, target, Resolve(segs, s), meta, base, s);
    }
  }

  /** An opened layer with the payload it reads from. */
  datatype Layer = Layer(index: seq<Mapping>, payload: seq<Block>)

  /** The first i + 1 of a bottom-up list of layers, topmost first. */
  function TopFirst(l: seq<Layer>, i: nat): (r: seq<Layer>)
    requires i < |l|
    ensures |r| == i + 1 && r[0] == l[i]
  {
    if i == 0 then [l[0]] else [l[i]] + TopFirst(l, i - 1)
  }

  function Indexes(l: seq<Layer>): seq<seq<Mapping>> { seq(|l|, i requires 0 <= i < |l| => l[i].index) }

  function Payloads(l: seq<Layer>): seq<seq<Block>> { seq(|l|, i requires 0 <= i < |l| => l[i].payload) }

  /** What a sector of a stack holds. */
  function Shown(stack: seq<Layer>, s: int): Block {
    MergedRead.Content(Merged(Indexes(stack), 0, s), Payloads(stack))
  }

  /** Under a covering layer, the rest of the stack is the stack below. */
  lemma {:induction false} BelowFirst(top: seq<Mapping>, lowers: seq<seq<Mapping>>, data: seq<Block>,
                                      payloads: seq<seq<Block>>, level: nat, s: int)
    ensures MergedRead.Content(Merged([top] + lowers, level + 1, s), [data] + payloads)
            == MergedRead.Content(Merged(lowers, level, s), payloads)
    decreases |lowers| - level
  {
    if level < |lowers| {
      assert ([top] + lowers)[level + 1] == lowers[level];
      BelowFirst(top, lowers, data, payloads, level + 1, s);
    }
  }

  /** A covering top decides; under any other the stack below shows. */
  lemma {:induction false} ShownThrough(top: Layer, lowers: seq<Layer>, s: int)
    ensures Resolve(top.index, s) != Hole ==> Shown([top] + lowers, s) == Held(Resolve(top.index, s), top.payload)
    ensures Resolve(top.index, s) == Hole ==> Shown([top] + lowers, s) == Shown(lowers, s)
  {
    var stack := [top] + lowers;
    assert Indexes(stack) == [top.index] + Indexes(lowers) && Payloads(stack) == [top.payload] + Payloads(lowers);
    assert Indexes(stack)[0] == top.index && Payloads(stack)[0] == top.payload;
    BelowFirst(top.index, Indexes(lowers), top.payload, Payloads(lowers), 0, s);
  }

  /** Every prefix of the stack reads back as the image its last layer was built
      from. */
  lemma {:induction false} StackReads(layers: seq<Layer>, images: seq<seq<Block>>, i: nat, s: nat)
    requires |layers| == |images| && i < |layers| && s < |images[0]|
    requires forall j :: 0 <= j < |images| ==> |images[j]| == |images[0]|
    requires forall j :: 0 <= j <= i ==>
              LayerOf(layers[j].index, layers[j].payload, images[j], if j == 0 then None else Some(images[j - 1]))
    ensures Shown(TopFirst(layers, i), s) == images[i][s]
  {
    var previous := if i == 0 then None else Some(images[i - 1]);
    assert SectorRight(Resolve(layers[i].index, s), layers[i].payload, images[i], previous, s);
    if i == 0 {
      ShownThrough(layers[0], [], s);
      assert [layers[0]] + [] == [layers[0]];
    } else {
      ShownThrough(layers[i], TopFirst(layers, i - 1), s);
      if Resolve(layers[i].index, s) == Hole { StackReads(layers, images, i - 1, s); }
    }
  }

  // ----- the conversion ------------------------------------------------------------------

  const CHUNK: nat := 2048
  const MAX_STACK: nat := 255

  /** snapshot: sizes the destination to zeroes and copies the chunks that are not
      all zero. */
  method Snapshot(source: seq<Block>) returns (destination: seq<Block>)
    ensures destination == source
  {
    destination := Zeros(|source|);
    var off: nat := 0;
    while off < |source|
      invariant off <= |source| == |destination| && destination[..off] == source[..off]
      invariant forall k :: off <= k < |source| ==> destination[k] == ZERO_BLOCK
    {
      var n := Min(CHUNK, |source| - off);
      var chunk := source[off..off + n];
      var next := if chunk == Zeros(n) then destination else destination[..off] + chunk + destination[off + n..];
      SnapshotStep(source, destination, next, off, n);
      destination := next;
      off := off + n;
    }
    assert destination[..off] == destination && source[..off] == source;
  }

  lemma {:induction false} SnapshotStep(source: seq<Block>, before: seq<Block>, after: seq<Block>, off: nat, n: nat)
    requires off + n <= |source| == |before| && before[..off] == source[..off]
    requires forall k :: off <= k < |source| ==> before[k] == ZERO_BLOCK
    requires after == if source[off..off + n] == Zeros(n) then before
                      else before[..off] + source[off..off + n] + before[off + n..]
    ensures |after| == |source| && after[..off + n] == source[..off + n]
    ensures forall k :: off + n <= k < |source| ==> after[k] == ZERO_BLOCK
  {
    forall k | 0 <= k < off + n
      ensures after[k] == source[k]
    {
      if k < off {
        assert before[..off][k] == source[..off][k];
      } else {
        assert source[k] == source[off..off + n][k - off];
      }
    }
  }

  /** One input: the image after the builder applied it, where the image holds its
      payload, and the payload. */
  datatype Input = Input(image: seq<Block>, remote: seq<Mapping>, target: seq<Block>)

  ghost predicate InputsOk(inputs: seq<Input>) {
    forall i :: 0 <= i < |inputs| ==>
      && |inputs[i].image| == |inputs[0].image| <= MAX_OFFSET && |inputs[i].target| <= MAX_MOFFSET
      && RemoteTrue(inputs[i].remote, inputs[i].target, inputs[i].image)
  }

  function PreviousImage(inputs: seq<Input>, i: nat): Option<seq<Block>>
    requires i < |inputs|
  {
    if i == 0 then None else Some(inputs[i - 1].image)
  }

  /** The builder's mapping is in order and leaves the anchor sector, and the layer
      stays within the index limit. */
  ghost predicate Buildable(inputs: seq<Input>, i: nat)
    requires i < |inputs| && InputsOk(inputs)
  {
    var x := inputs[i];
    && RemoteOk(x.remote, |x.image|) && |x.image| > 0 && Resolve(x.remote, 0) == Hole
    && |DiffIndex(x.image, PreviousImage(inputs, i), x.remote, |x.image|)| <= MAX_INDEX
  }

  ghost predicate BuiltFrom(layers: seq<Layer>, inputs: seq<Input>)
    requires |layers| <= |inputs| && InputsOk(inputs)
  {
    forall i :: 0 <= i < |layers| ==>
              LayerOf(layers[i].index, layers[i].payload, inputs[i].image, PreviousImage(inputs, i))
  }

  method BuildNext(inputs: seq<Input>, i: nat, previous: seq<Block>) returns (r: Option<Layer>)
    requires InputsOk(inputs) && i < |inputs| && (i > 0 ==> previous == inputs[i - 1].image)
    ensures r.Some? <==> Buildable(inputs, i)
    ensures r.Some? ==> LayerOf(r.value.index, r.value.payload, inputs[i].image, PreviousImage(inputs, i))
  {
    var x := inputs[i];
    var built := BuildLayer(x.image, if i == 0 then None else Some(previous), x.remote, x.target);
    r := if built.None? then None else Some(Layer(built.value.0, built.value.1));
  }

  lemma {:induction false} BuiltMore(layers: seq<Layer>, inputs: seq<Input>, next: Layer)
    requires |layers| < |inputs| && InputsOk(inputs) && BuiltFrom(layers, inputs)
    requires LayerOf(next.index, next.payload, inputs[|layers|].image, PreviousImage(inputs, |layers|))
    ensures BuiltFrom(layers + [next], inputs)
  {
    forall i | 0 <= i < |layers| + 1
      ensures var l := (layers + [next])[i]; LayerOf(l.index, l.payload, inputs[i].image, PreviousImage(inputs, i))
    {
      if i < |layers| { assert LayerOf(layers[i].index, layers[i].payload, inputs[i].image, PreviousImage(inputs, i)); }
    }
  }

  /** The layer loop: each layer is made against a snapshot of the image before. */
  method BuildAll(inputs: seq<Input>) returns (r: Option<seq<Layer>>)
    requires InputsOk(inputs)
    ensures r.Some? <==> forall i :: 0 <= i < |inputs| ==> Buildable(inputs, i)
    ensures r.Some? ==> |r.value| == |inputs| && BuiltFrom(r.value, inputs)
  {
    var layers: seq<Layer> := [];
    var previous: seq<Block> := [];
    var i: nat := 0;
    while i < |inputs|
      invariant i <= |inputs| && |layers| == i && (0 < i < |inputs| ==> previous == inputs[i - 1].image)
      invariant BuiltFrom(layers, inputs) && forall k :: 0 <= k < i ==> Buildable(inputs, k)
    {
      var built := BuildNext(inputs, i, previous);
      if built.None? { return None; }
      BuiltMore(layers, inputs, built.value);
      layers := layers + [built.value];
      if i + 1 < |inputs| { previous := Snapshot(inputs[i].image); }
      i := i + 1;
    }
    r := Some(layers);
  }

  /** convert_turbo_layers: fails exactly for a bad number of inputs or a layer that
      can not be built; otherwise every prefix of the stack reads back, sector by
      sector, as the image at that point. */
  method ConvertLayers(inputs: seq<Input>) returns (r: Option<seq<Layer>>)
    requires InputsOk(inputs)
    ensures r.Some? <==> 0 < |inputs| <= MAX_STACK && forall i :: 0 <= i < |inputs| ==> Buildable(inputs, i)
    ensures r.Some? ==> |r.value| == |inputs|
    ensures r.Some? ==> forall i: nat, s: nat :: i < |inputs| && s < |inputs[i].image| ==>
              Shown(TopFirst(r.value, i), s) == inputs[i].image[s]
  {
    if |inputs| == 0 || |inputs| > MAX_STACK { return None; }
    r := BuildAll(inputs);
    if r.Some? { StackShown(r.value, inputs); }
  }

  lemma {:induction false} StackShown(layers: seq<Layer>, inputs: seq<Input>)
    requires InputsOk(inputs) && |layers| == |inputs| && BuiltFrom(layers, inputs)
    ensures forall i: nat, s: nat :: i < |inputs| && s < |inputs[i].image| ==>
              Shown(TopFirst(layers, i), s) == inputs[i].image[s]
  {
    var images := seq(|inputs|, k requires 0 <= k < |inputs| => inputs[k].image);
    forall i: nat, s: nat | i < |inputs| && s < |inputs[i].image|
      ensures Shown(TopFirst(layers, i), s) == inputs[i].image[s]
    {
      assert forall j :: 0 <= j < |images| ==> |images[j]| == |images[0]|;
      StackReads(layers, images, i, s);
    }
  }
}
