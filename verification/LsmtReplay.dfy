/** Replaying an LSMT upper's mapping log. */
module LsmtReplay {
  import opened Segments
  import opened HybridReplay

  predicate ValidEntry(m: Mapping, sectors: nat, dataSectors: nat) {
    && 0 < m.length <= MAX_LENGTH && m.offset < sectors && m.length <= sectors - m.offset
    && (m.zeroed || (DATA_START <= m.moffset < dataSectors && m.length <= dataSectors - m.moffset))
  }

  /** ZERO owns no payload here: its offset is a placeholder. */
  function Norm(m: Mapping): Mapping {
    m.(tag := 0, moffset := if m.zeroed then DATA_START else m.moffset)
  }

  function LiveIndex(log: seq<Mapping>): seq<Mapping> {
    if |log| == 0 then []
    else if Skipped(log[|log| - 1]) then LiveIndex(log[..|log| - 1])
    else Overlay(LsmtMode, LiveIndex(log[..|log| - 1]), Norm(log[|log| - 1]))
  }

  ghost predicate Entries(log: seq<Mapping>, sectors: nat, dataSectors: nat) {
    forall i :: 0 <= i < |log| ==> Skipped(log[i]) || ValidEntry(log[i], sectors, dataSectors)
  }

  ghost predicate Replayable(log: seq<Mapping>, sectors: nat, dataSectors: nat) {
    && |log| <= MAX_LOG_RECORDS && Entries(log, sectors, dataSectors)
    && (forall n :: 0 <= n <= |log| ==> |LiveIndex(log[..n])| <= MAX_INDEX)
  }

  /** An untagged mapping inside the payload; a ZERO's placeholder lies at or
      below `pin`. */
  predicate Fits(m: Mapping, dataSectors: nat, pin: nat) {
    && m.tag == 0 && DATA_START <= m.moffset
    && (if m.zeroed then m.moffset <= pin else m.moffset + m.length <= dataSectors)
  }

  ghost predicate SegsFit(l: seq<Mapping>, sectors: nat, dataSectors: nat, pin: nat) {
    Index(l) && Within(l, 0, sectors) && forall i :: 0 <= i < |l| ==> Fits(l[i], dataSectors, pin)
  }

  /** A mapping as a live LSMT upper keeps it. */
  predicate SegOk(m: Mapping, dataSectors: nat) { Fits(m, dataSectors, DATA_START) }

  ghost predicate SegsOk(l: seq<Mapping>, sectors: nat, dataSectors: nat) {
    SegsFit(l, sectors, dataSectors, DATA_START)
  }

  lemma {:induction false} CutSegOk(m: Mapping, lo: nat, hi: nat, dataSectors: nat)
    requires lo <= hi && SegOk(m, dataSectors)
    ensures forall i :: 0 <= i < |CutOne(LsmtMode, m, lo, hi)| ==> SegOk(CutOne(LsmtMode, m, lo, hi)[i], dataSectors)
  {
  }

  lemma {:induction false} CutSegsOk(l: seq<Mapping>, lo: nat, hi: nat, sectors: nat, dataSectors: nat)
    requires lo <= hi && SegsOk(l, sectors, dataSectors)
    ensures SegsOk(Cut(LsmtMode, l, lo, hi), sectors, dataSectors)
  {
    CutIndex(LsmtMode, l, lo, hi, 0, sectors);
    if |l| > 0 {
      CutSegsOk(l[..|l| - 1], lo, hi, sectors, dataSectors);
      CutSegOk(l[|l| - 1], lo, hi, dataSectors);
    }
  }

  lemma {:induction false} OverlaySegsOk(l: seq<Mapping>, m: Mapping, sectors: nat, dataSectors: nat)
    requires SegsOk(l, sectors, dataSectors) && SegOk(m, dataSectors) && 0 < m.length <= MAX_LENGTH
    requires m.End() <= sectors
    ensures SegsOk(Overlay(LsmtMode, l, m), sectors, dataSectors)
  {
    var c := Cut(LsmtMode, l, m.offset, m.End());
    CutSegsOk(l, m.offset, m.End(), sectors, dataSectors);
    CutIndex(LsmtMode, l, m.offset, m.End(), 0, sectors);
    InsertSorted(c, m);
    InsertWithin(c, m, 0, sectors);
    forall i | 0 <= i < |Insert(c, m)|
      ensures SegOk(Insert(c, m)[i], dataSectors)
    {
      InsertAt(c, m, i);
    }
  }

  lemma {:induction false} LiveSegsOk(log: seq<Mapping>, sectors: nat, dataSectors: nat)
    requires Entries(log, sectors, dataSectors)
    ensures SegsOk(LiveIndex(log), sectors, dataSectors)
  {
    if |log| > 0 {
      LiveSegsOk(log[..|log| - 1], sectors, dataSectors);
      if !Skipped(log[|log| - 1]) {
        OverlaySegsOk(LiveIndex(log[..|log| - 1]), Norm(log[|log| - 1]), sectors, dataSectors);
      }
    }
  }

  /** The log with padding removed and markers normalised: what it means. */
  function Meaning(log: seq<Mapping>, s: int): Sector {
    if |log| == 0 then Hole
    else if !Skipped(log[|log| - 1]) && log[|log| - 1].Covers(s) then Norm(log[|log| - 1]).At(s)
    else Meaning(log[..|log| - 1], s)
  }

  lemma {:induction false} LiveMeans(log: seq<Mapping>, sectors: nat, dataSectors: nat, s: int)
    requires Entries(log, sectors, dataSectors)
    ensures Resolve(LiveIndex(log), s) == Meaning(log, s)
  {
    if |log| > 0 {
      var rest, m := log[..|log| - 1], log[|log| - 1];
      LiveMeans(rest, sectors, dataSectors, s);
      LiveSegsOk(rest, sectors, dataSectors);
      if !Skipped(m) { ResolveOverlay(LsmtMode, LiveIndex(rest), Norm(m), s); }
    }
  }

  /** Replay::append for one record: None when it throws. */
  method AppendEntry(live: seq<Mapping>, m: Mapping, sectors: nat, dataSectors: nat) returns (r: Option<seq<Mapping>>)
    requires SegsOk(live, sectors, dataSectors)
    ensures r.Some? <==>
            || Skipped(m)
            || (ValidEntry(m, sectors, dataSectors) && |Overlay(LsmtMode, live, Norm(m))| <= MAX_INDEX)
    ensures r.Some? ==> r.value == if Skipped(m) then live else Overlay(LsmtMode, live, Norm(m))
  {
    if m.offset == MAX_OFFSET { return Some(live); }
    if m.length == 0 || m.length > MAX_LENGTH || m.offset >= sectors || m.length > sectors - m.offset { return None; }
    if !m.zeroed && (m.moffset < DATA_START || m.moffset >= dataSectors || m.length > dataSectors - m.moffset) {
      return None;
    }
    var bare := m.(tag := 0, moffset := if m.zeroed then DATA_START else m.moffset);
    var cut := CutMapped(LsmtMode, live, bare.offset, bare.End());
    var next := Insert(cut, bare);
    r := if |next| > MAX_INDEX then None else Some(next);
  }

  // ----- aliasing ---------------------------------------------------------------

  /** Extents of the DATA mappings. */
  ghost predicate DataExtents(ph: seq<Extent>, l: seq<Mapping>) {
    && DistinctIndices(ph)
    && (forall e :: e in ph ==>
              IsData(e, l) && e == Extent(l[e.index].moffset, l[e.index].moffset + l[e.index].length, e.index))
    && (forall i :: 0 <= i < |l| && !l[i].zeroed ==> Extent(l[i].moffset, l[i].moffset + l[i].length, i) in ph)
  }

  method CollectData(l: seq<Mapping>) returns (ph: seq<Extent>)
    ensures DataExtents(ph, l)
  {
    ph := [];
    var i: nat := 0;
    while i < |l|
      invariant i <= |l| && DistinctIndices(ph)
      invariant forall e :: e in ph ==> e.index < i && IsData(e, l)
      invariant forall e :: e in ph ==>
                  e == Extent(l[e.index].moffset, l[e.index].moffset + l[e.index].length, e.index)
      invariant forall k :: 0 <= k < i && !l[k].zeroed ==> Extent(l[k].moffset, l[k].moffset + l[k].length, k) in ph
    {
      if !l[i].zeroed {
        assert forall p :: 0 <= p < |ph| ==> ph[p] in ph;
        ph := ph + [Extent(l[i].moffset, l[i].moffset + l[i].length, i)];
      }
      i := i + 1;
    }
  }

  /** In start order, neighbours that do not meet mean no two extents meet. */
  lemma {:induction false} NeighboursSuffice(ph: seq<Extent>, p: nat, q: nat)
    requires Ordered(ph) && p < q < |ph|
    requires forall i :: 0 < i <= q ==> ph[i - 1].end <= ph[i].start
    ensures ph[p].end <= ph[q].start
    decreases q - p
  {
    assert ph[q - 1].end <= ph[q].start;
    if p < q - 1 { NeighboursSuffice(ph, p, q - 1); assert ph[q - 1].start < ph[q - 1].end; }
  }

  lemma {:induction false} AliasInOrder(ph: seq<Extent>, l: seq<Mapping>, p: nat, q: nat)
    requires DataExtents(ph, l) && p < |ph| && q < |ph| && p != q && Meets(ph[p], ph[q])
    ensures Alias(l)
  {
    assert ph[p] in ph && ph[q] in ph;
    var i, j := ph[p].index, ph[q].index;
    assert i != j by { if p < q { assert ph[p].index != ph[q].index; } else { assert ph[q].index != ph[p].index; } }
    assert Overlap(l[i], l[j]) && Overlap(l[j], l[i]);
  }

  lemma {:induction false} NoAliasInOrder(ph: seq<Extent>, l: seq<Mapping>)
    requires DataExtents(ph, l) && Ordered(ph)
    requires forall i :: 0 < i < |ph| ==> ph[i - 1].end <= ph[i].start
    ensures !Alias(l)
  {
    if Alias(l) {
      var i, j :| 0 <= i < j < |l| && !l[i].zeroed && !l[j].zeroed && Overlap(l[i], l[j]);
      var a := Extent(l[i].moffset, l[i].moffset + l[i].length, i);
      var b := Extent(l[j].moffset, l[j].moffset + l[j].length, j);
      assert a in ph && b in ph;
      var p :| 0 <= p < |ph| && ph[p] == a;
      var q :| 0 <= q < |ph| && ph[q] == b;
      if p < q { NeighboursSuffice(ph, p, q); } else { NeighboursSuffice(ph, q, p); }
    }
  }

  /** finish: throws exactly when two live DATA extents share payload. */
  method FinishIndex(l: seq<Mapping>) returns (ok: bool)
    requires Nonempty(l)
    ensures ok <==> !Alias(l)
  {
    var unsorted := CollectData(l);
    var ph := SortByStart(unsorted);
    assert Ordered(ph) by { assert forall p :: 0 <= p < |ph| ==> ph[p] in ph; }
    var i: nat := 1;
    while i < |ph|
      invariant 1 <= i
      invariant forall k :: 0 < k < i && k < |ph| ==> ph[k - 1].end <= ph[k].start
    {
      if ph[i].start < ph[i - 1].end {
        AliasInOrder(ph, l, i - 1, i);
        return false;
      }
      i := i + 1;
    }
    NoAliasInOrder(ph, l);
    ok := true;
  }

  /** The live index of a log; None when some record is refused. */
  method ReplayEntries(log: seq<Mapping>, sectors: nat, dataSectors: nat) returns (r: Option<seq<Mapping>>)
    requires |log| <= MAX_LOG_RECORDS
    ensures r.Some? <==> Replayable(log, sectors, dataSectors)
    ensures r.Some? ==> r.value == LiveIndex(log) && SegsOk(r.value, sectors, dataSectors)
  {
    var live: seq<Mapping> := [];
    var n: nat := 0;
    while n < |log|
      invariant n <= |log| && live == LiveIndex(log[..n]) && SegsOk(live, sectors, dataSectors)
      invariant Replayable(log[..n], sectors, dataSectors)
    {
      assert log[..n + 1][..n] == log[..n];
      var next := AppendEntry(live, log[n], sectors, dataSectors);
      if next.None? {
        assert log[..n + 1] == log[..n] + [log[n]];
        return None;
      }
      assert log[..n][..n] == log[..n];
      ReplayableStep(log, n, sectors, dataSectors);
      live := next.value;
      n := n + 1;
      LiveSegsOk(log[..n], sectors, dataSectors);
    }
    assert log[..n] == log;
    r := Some(live);
  }

  /** A whole replay: refused exactly for an invalid or oversized log or aliased
      live DATA, and otherwise meaning what the records say. */
  method ReplayLog(log: seq<Mapping>, sectors: nat, dataSectors: nat) returns (r: Option<seq<Mapping>>)
    requires |log| <= MAX_LOG_RECORDS
    ensures r.Some? <==> Replayable(log, sectors, dataSectors) && !Alias(LiveIndex(log))
    ensures r.Some? ==> r.value == LiveIndex(log) && forall s: int :: Resolve(r.value, s) == Meaning(log, s)
  {
    r := ReplayEntries(log, sectors, dataSectors);
    if r.None? { return; }
    var ok := FinishIndex(r.value);
    if !ok { return None; }
    forall s: int
      ensures Resolve(r.value, s) == Meaning(log, s)
    {
      LiveMeans(log, sectors, dataSectors, s);
    }
  }

  lemma {:induction false} ReplayableStep(log: seq<Mapping>, n: nat, sectors: nat, dataSectors: nat)
    requires n < |log| <= MAX_LOG_RECORDS && Replayable(log[..n], sectors, dataSectors)
    requires Skipped(log[n]) || ValidEntry(log[n], sectors, dataSectors)
    requires |LiveIndex(log[..n + 1])| <= MAX_INDEX
    ensures Replayable(log[..n + 1], sectors, dataSectors)
  {
    var l := log[..n + 1];
    forall k | 0 <= k <= |l|
      ensures |LiveIndex(l[..k])| <= MAX_INDEX
    {
      if k <= n { assert l[..k] == log[..n][..k]; } else { assert l[..k] == l; }
    }
    assert forall i :: 0 <= i < n ==> l[i] == log[..n][i];
  }
}
