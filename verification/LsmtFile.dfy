/** A sealed LSMT layer file and the checks of opening it. */
module LsmtFile {
  import opened Segments
  import opened SectorArray
  import LayerMerge

  /** A parsed header or trailer; `supported` covers its version numbers and
      the absence of unknown flag bits. */
  datatype Region = Region(isHeader: bool, isData: bool, isSealed: bool, hybrid: bool, supported: bool,
                           indexOffset: nat, indexSize: nat, virtualSize: nat)

  /** A layer file of `bytes` bytes: its first and last region, the mapping
      entries stored at the trailer's index offset, and its sectors. */
  datatype File = File(bytes: nat, header: Region, trailer: Region, entries: seq<Mapping>, payload: seq<Block>)

  /** Entries with the invalid offset are dropped and tags cleared. */
  function Loaded(entries: seq<Mapping>): seq<Mapping> {
    if |entries| == 0 then []
    else if Skipped(entries[|entries| - 1]) then Loaded(entries[..|entries| - 1])
    else Loaded(entries[..|entries| - 1]) + [entries[|entries| - 1].(tag := 0)]
  }

  predicate RegionsOk(f: File) {
    && f.bytes >= 2 * SPACE
    && f.header.isHeader && f.header.isData && !f.trailer.isHeader && f.trailer.isData && f.trailer.isSealed
    && f.header.hybrid == f.trailer.hybrid
    && (f.trailer.hybrid ==> f.header.supported && f.trailer.supported)
    && f.trailer.indexSize <= MAX_INDEX
    && SPACE <= f.trailer.indexOffset <= f.bytes - SPACE
    && 16 * f.trailer.indexSize <= f.bytes - SPACE - f.trailer.indexOffset
  }

  /** A mapping whose payload lies before the index; a ZERO owns none, but its
      placeholder is checked, and only a Hybrid file may leave it unset. */
  predicate Placed(m: Mapping, t: Region) {
    && (t.hybrid ==> m.length > 0 && t.virtualSize % SECTOR == 0 && m.End() <= t.virtualSize / SECTOR)
    && (if m.zeroed
        then (t.hybrid && m.moffset == NO_PHYSICAL) || DATA_START <= m.moffset <= t.indexOffset / SECTOR
        else && DATA_START <= m.moffset < t.indexOffset / SECTOR
             && DATA_START < m.moffset + m.length <= t.indexOffset / SECTOR)
  }

  ghost predicate InOrder(l: seq<Mapping>) {
    forall i :: 0 < i < |l| ==> l[i - 1].End() <= l[i].offset
  }

  ghost predicate Opens(f: File) {
    && RegionsOk(f) && InOrder(Loaded(f.entries))
    && (forall i :: 0 <= i < |Loaded(f.entries)| ==> Placed(Loaded(f.entries)[i], f.trailer))
  }

  /** open: refuses exactly the files that fail a check. */
  method Open(f: File) returns (r: Option<seq<Mapping>>)
    requires |f.entries| == f.trailer.indexSize
    ensures r.Some? <==> Opens(f)
    ensures r.Some? ==> r.value == Loaded(f.entries) && Sorted(r.value)
  {
    if f.bytes < 2 * SPACE || !f.header.isHeader || !f.header.isData { return None; }
    if f.trailer.isHeader || !f.trailer.isData || !f.trailer.isSealed { return None; }
    if f.header.hybrid != f.trailer.hybrid { return None; }
    if f.trailer.hybrid && !(f.header.supported && f.trailer.supported) { return None; }
    if f.trailer.indexSize > MAX_INDEX { return None; }
    if f.trailer.indexOffset < SPACE || f.trailer.indexOffset > f.bytes - SPACE { return None; }
    if 16 * f.trailer.indexSize > f.bytes - SPACE - f.trailer.indexOffset { return None; }
    var segments := Load(f.entries);
    var i: nat := 1;
    while i < |segments|
      invariant i > 0 && forall k :: 0 < k < i && k < |segments| ==> segments[k - 1].End() <= segments[k].offset
    {
      if segments[i - 1].End() > segments[i].offset { return None; }
      i := i + 1;
    }
    i := 0;
    while i < |segments|
      invariant i <= |segments| && forall k :: 0 <= k < i ==> Placed(segments[k], f.trailer)
    {
      if !Placed(segments[i], f.trailer) { return None; }
      i := i + 1;
    }
    InOrderSorted(segments);
    r := Some(segments);
  }

  method Load(entries: seq<Mapping>) returns (segments: seq<Mapping>)
    ensures segments == Loaded(entries)
  {
    segments := [];
    var i: nat := 0;
    while i < |entries|
      invariant i <= |entries| && segments == Loaded(entries[..i])
    {
      assert entries[..i + 1][..i] == entries[..i];
      if !Skipped(entries[i]) { segments := segments + [entries[i].(tag := 0)]; }
      i := i + 1;
    }
    assert entries[..i] == entries;
  }

  lemma {:induction false} InOrderSorted(l: seq<Mapping>)
    requires InOrder(l)
    ensures Sorted(l)
  {
    forall i, j | 0 <= i < j < |l|
      ensures l[i].End() <= l[j].offset
    {
      InOrderPair(l, i, j);
    }
  }

  lemma {:induction false} InOrderPair(l: seq<Mapping>, i: nat, j: nat)
    requires InOrder(l) && i < j < |l|
    ensures l[i].End() <= l[j].offset
    decreases j
  {
    assert l[j - 1].End() <= l[j].offset;
    if i < j - 1 { InOrderPair(l, i, j - 1); }
  }

  lemma {:induction false} LoadedSame(l: seq<Mapping>)
    requires forall i :: 0 <= i < |l| ==> l[i].tag == 0 && !Skipped(l[i])
    ensures Loaded(l) == l
  {
    if |l| > 0 {
      LoadedSame(l[..|l| - 1]);
      assert l[|l| - 1].(tag := 0) == l[|l| - 1] && l[..|l| - 1] + [l[|l| - 1]] == l;
    }
  }

  lemma {:induction false} LoadedLengths(entries: seq<Mapping>)
    requires forall i :: 0 <= i < |entries| ==> entries[i].length <= MAX_LENGTH
    ensures forall i :: 0 <= i < |Loaded(entries)| ==> Loaded(entries)[i].length <= MAX_LENGTH
  {
    if |entries| > 0 { LoadedLengths(entries[..|entries| - 1]); }
  }

  /** A Hybrid file that opens is tidy, since it may hold no empty segment, */
  lemma {:induction false} HybridOpensTidy(f: File)
    requires Opens(f) && f.trailer.hybrid && forall i :: 0 <= i < |f.entries| ==> f.entries[i].length <= MAX_LENGTH
    ensures LayerMerge.Tidy(Loaded(f.entries))
  {
    LoadedLengths(f.entries);
    InOrderSorted(Loaded(f.entries));
  }

  /** A plain file whose one entry is an empty ZERO segment. */
  function Empty(at: nat): File {
    var t := Region(false, true, true, false, true, 8192, 1, 16384);
    File(16384, t.(isHeader := true, isSealed := false), t, [Mapping(at, 0, DATA_START, true, 0)], [])
  }

  /** but a plain one need not be: the empty segment passes every check wherever
      it lies past the start, and then merging it over some tidy layer gives an
      index out of order. */
  lemma {:induction false} UntidyOpens(at: nat)
    requires 0 < at < MAX_OFFSET
    ensures Opens(Empty(at)) && !LayerMerge.Tidy(Loaded(Empty(at).entries))
    ensures exists lower ::
              && LayerMerge.Tidy(lower)
              && !Sorted(LayerMerge.MergeOf([Loaded(Empty(at).entries), lower], 0, 0, MAX_OFFSET, []))
  {
    var l := [Mapping(at, 0, DATA_START, true, 0)];
    LoadedSame(l);
    EmptyUntidy(l, at);
  }

  lemma {:induction false} EmptyUntidy(l: seq<Mapping>, at: nat)
    requires l == [Mapping(at, 0, DATA_START, true, 0)] && 0 < at < MAX_OFFSET
    ensures !LayerMerge.Tidy(l)
    ensures exists lower :: LayerMerge.Tidy(lower) && !Sorted(LayerMerge.MergeOf([l, lower], 0, 0, MAX_OFFSET, []))
  {
    assert l[0].length == 0 && l[0].offset != LayerMerge.PrevEnd(l, 0);
    LayerMerge.UntidyBreaks(l, 0);
  }
}
