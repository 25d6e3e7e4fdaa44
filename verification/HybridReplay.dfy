/** Replaying a Hybrid mapping log into a live index, and deciding which
    payload each mapping may keep. */
module HybridReplay {
  import opened Segments

  predicate Padding(m: Mapping) { m.offset == MAX_OFFSET && m.length == 0 }

  /** A record Replay::append accepts for these bounds. */
  predicate ValidRecord(m: Mapping, sectors: nat, dataSectors: nat) {
    && 0 < m.length <= MAX_LENGTH && m.offset < sectors && m.length <= sectors - m.offset
    && (if m.zeroed
        then m.moffset == NO_PHYSICAL || DATA_START <= m.moffset <= dataSectors
        else DATA_START <= m.moffset < dataSectors && m.length <= dataSectors - m.moffset)
  }

  predicate CleanPadding(m: Mapping) { Padding(m) && m.moffset == 0 && !m.zeroed && m.tag == 0 }

  /** The live index after a log: each record cuts what it replaces. */
  function Live(log: seq<Mapping>): seq<Mapping> {
    if |log| == 0 then []
    else if Padding(log[|log| - 1]) then Live(log[..|log| - 1])
    else Overlay(HybridMode, Live(log[..|log| - 1]), log[|log| - 1].(tag := 0))
  }

  /** Every record is acceptable and no prefix exceeds the index limit. */
  ghost predicate Acceptable(log: seq<Mapping>, sectors: nat, dataSectors: nat) {
    && |log| <= MAX_LOG_RECORDS
    && (forall i :: 0 <= i < |log| ==>
              CleanPadding(log[i]) || (!Padding(log[i]) && ValidRecord(log[i], sectors, dataSectors)))
    && (forall n :: 0 <= n <= |log| ==> |Live(log[..n])| <= MAX_INDEX)
  }

  ghost predicate Records(log: seq<Mapping>, sectors: nat, dataSectors: nat) {
    forall i :: 0 <= i < |log| ==> Padding(log[i]) || ValidRecord(log[i], sectors, dataSectors)
  }

  /** What holds of every live mapping: inside the volume, untagged, DATA inside
      the payload. */
  ghost predicate LiveOk(l: seq<Mapping>, sectors: nat, dataSectors: nat) {
    && Index(l) && Within(l, 0, sectors)
    && forall i :: 0 <= i < |l| ==> MappingOk(l[i], dataSectors)
  }

  predicate MappingOk(m: Mapping, dataSectors: nat) {
    && m.tag == 0 && DATA_START <= m.moffset
    && (m.zeroed || m.moffset + m.length <= dataSectors)
  }

  lemma {:induction false} CutOneOk(m: Mapping, lo: nat, hi: nat, dataSectors: nat)
    requires lo <= hi && 0 < m.length && MappingOk(m, dataSectors) && dataSectors < NO_PHYSICAL
    ensures forall i :: 0 <= i < |CutOne(HybridMode, m, lo, hi)| ==>
              MappingOk(CutOne(HybridMode, m, lo, hi)[i], dataSectors)
  {
  }

  lemma {:induction false} CutLiveOk(l: seq<Mapping>, lo: nat, hi: nat, sectors: nat, dataSectors: nat)
    requires lo <= hi && LiveOk(l, sectors, dataSectors) && dataSectors < NO_PHYSICAL
    ensures LiveOk(Cut(HybridMode, l, lo, hi), sectors, dataSectors)
  {
    CutIndex(HybridMode, l, lo, hi, 0, sectors);
    if |l| > 0 {
      CutLiveOk(l[..|l| - 1], lo, hi, sectors, dataSectors);
      CutOneOk(l[|l| - 1], lo, hi, dataSectors);
    }
  }

  lemma {:induction false} OverlayLiveOk(l: seq<Mapping>, m: Mapping, sectors: nat, dataSectors: nat)
    requires LiveOk(l, sectors, dataSectors) && ValidRecord(m, sectors, dataSectors) && m.tag == 0
    requires dataSectors < NO_PHYSICAL
    ensures LiveOk(Overlay(HybridMode, l, m), sectors, dataSectors)
  {
    CutLiveOk(l, m.offset, m.End(), sectors, dataSectors);
    CutIndex(HybridMode, l, m.offset, m.End(), 0, sectors);
    var c := Cut(HybridMode, l, m.offset, m.End());
    InsertSorted(c, m);
    InsertWithin(c, m, 0, sectors);
    forall i | 0 <= i < |Insert(c, m)|
      ensures MappingOk(Insert(c, m)[i], dataSectors)
    {
      InsertAt(c, m, i);
    }
  }

  lemma {:induction false} LiveIsOk(log: seq<Mapping>, sectors: nat, dataSectors: nat)
    requires Records(log, sectors, dataSectors) && dataSectors < NO_PHYSICAL
    ensures LiveOk(Live(log), sectors, dataSectors)
  {
    if |log| > 0 {
      LiveIsOk(log[..|log| - 1], sectors, dataSectors);
      if !Padding(log[|log| - 1]) {
        OverlayLiveOk(Live(log[..|log| - 1]), log[|log| - 1].(tag := 0), sectors, dataSectors);
      }
    }
  }

  /** The live index means what the log means: the last record wins. */
  lemma {:induction false} LiveMeaning(log: seq<Mapping>, sectors: nat, dataSectors: nat, s: int)
    requires Records(log, sectors, dataSectors) && dataSectors < NO_PHYSICAL
    ensures Resolve(Live(log), s) == Retag(Resolve(log, s), 0)
  {
    if |log| > 0 {
      var rest, m := log[..|log| - 1], log[|log| - 1];
      LiveMeaning(rest, sectors, dataSectors, s);
      LiveIsOk(rest, sectors, dataSectors);
      if !Padding(m) { ResolveOverlay(HybridMode, Live(rest), m.(tag := 0), s); }
    }
  }

  /** Replay::append for one record: None when it throws. */
  method Append(live: seq<Mapping>, m: Mapping, sectors: nat, dataSectors: nat) returns (r: Option<seq<Mapping>>)
    requires LiveOk(live, sectors, dataSectors)
    ensures r.Some? <==> (CleanPadding(m) || (!Padding(m) && ValidRecord(m, sectors, dataSectors) &&
                            |Overlay(HybridMode, live, m.(tag := 0))| <= MAX_INDEX))
    ensures r.Some? ==> r.value == if Padding(m) then live else Overlay(HybridMode, live, m.(tag := 0))
  {
    if m.offset == MAX_OFFSET && m.length == 0 {
      return if m.moffset != 0 || m.zeroed || m.tag != 0 then None else Some(live);
    }
    if m.length == 0 || m.length > MAX_LENGTH || m.offset >= sectors || m.length > sectors - m.offset { return None; }
    if m.zeroed {
      if m.moffset != NO_PHYSICAL && (m.moffset < DATA_START || m.moffset > dataSectors) { return None; }
    } else if m.moffset < DATA_START || m.moffset >= dataSectors || m.length > dataSectors - m.moffset {
      return None;
    }
    var bare := m.(tag := 0);
    var cut := CutMapped(HybridMode, live, bare.offset, bare.End());
    var next := Insert(cut, bare);
    r := if |next| > MAX_INDEX then None else Some(next);
  }

  // ----- physical ownership ---------------------------------------------------

  predicate Overlap(a: Mapping, b: Mapping) {
    a.moffset < b.moffset + b.length && b.moffset < a.moffset + a.length
  }

  /** Its extent is compared with the others: DATA, and ZERO inside the payload. */
  predicate Candidate(m: Mapping, dataSectors: nat) {
    !m.zeroed || (m.moffset != NO_PHYSICAL && m.moffset <= dataSectors && m.length <= dataSectors - m.moffset)
  }

  ghost predicate Alias(l: seq<Mapping>) {
    exists i, j :: 0 <= i < j < |l| && !l[i].zeroed && !l[j].zeroed && Overlap(l[i], l[j])
  }

  ghost predicate Exclusive(l: seq<Mapping>, i: nat, dataSectors: nat)
    requires i < |l|
  {
    && Candidate(l[i], dataSectors)
    && forall j :: 0 <= j < |l| && j != i && Candidate(l[j], dataSectors) ==> !Overlap(l[i], l[j])
  }

  /** ZERO keeps its payload exactly when it owns it exclusively. */
  ghost function Normalized(l: seq<Mapping>, dataSectors: nat): seq<Mapping> {
    seq(|l|, i requires 0 <= i < |l| =>
      if l[i].zeroed && !Exclusive(l, i, dataSectors) then l[i].(moffset := NO_PHYSICAL) else l[i])
  }

  datatype Extent = Extent(start: nat, end: nat, index: nat)

  predicate Meets(a: Extent, b: Extent) { a.start < b.end && b.start < a.end }

  ghost predicate ByStart(ph: seq<Extent>) {
    forall p, q :: 0 <= p < q < |ph| ==> ph[p].start <= ph[q].start
  }

  predicate ExtentOf(e: Extent, l: seq<Mapping>, n: nat) {
    e.index < |l| && Candidate(l[e.index], n) &&
    e == Extent(l[e.index].moffset, l[e.index].moffset + l[e.index].length, e.index)
  }

  ghost predicate DistinctIndices(ph: seq<Extent>) {
    forall p, q :: 0 <= p < q < |ph| ==> ph[p].index != ph[q].index
  }

  /** One extent for each candidate, none twice. */
  ghost predicate Extents(ph: seq<Extent>, l: seq<Mapping>, n: nat) {
    && DistinctIndices(ph)
    && (forall e :: e in ph ==> ExtentOf(e, l, n))
    && (forall i :: 0 <= i < |l| && Candidate(l[i], n) ==> Extent(l[i].moffset, l[i].moffset + l[i].length, i) in ph)
  }

  ghost predicate SameExtents(a: seq<Extent>, b: seq<Extent>) {
    (forall e :: e in a <==> e in b) && (DistinctIndices(a) ==> DistinctIndices(b))
  }

  /** Sorts extents by physical start. */
  method SortByStart(ph: seq<Extent>) returns (r: seq<Extent>)
    ensures ByStart(r) && SameExtents(ph, r)
  {
    r := [];
    var n := 0;
    while n < |ph|
      invariant n <= |ph| && ByStart(r) && SameExtents(ph[..n], r)
    {
      var k := 0;
      while k < |r| && r[k].start <= ph[n].start
        invariant k <= |r|
        invariant forall p :: 0 <= p < k ==> r[p].start <= ph[n].start
      {
        k := k + 1;
      }
      var next := r[..k] + [ph[n]] + r[k..];
      InsertExtent(ph, n, r, k, next);
      r := next;
      n := n + 1;
    }
    assert ph[..n] == ph;
  }

  lemma {:induction false} InsertExtent(ph: seq<Extent>, n: nat, r: seq<Extent>, k: nat, next: seq<Extent>)
    requires n < |ph| && k <= |r| && ByStart(r) && SameExtents(ph[..n], r) && next == r[..k] + [ph[n]] + r[k..]
    requires forall p :: 0 <= p < k ==> r[p].start <= ph[n].start
    requires k < |r| ==> ph[n].start < r[k].start
    ensures ByStart(next) && SameExtents(ph[..n + 1], next)
  {
    assert ph[..n + 1] == ph[..n] + [ph[n]];
    assert forall e :: e in next <==> e in r || e == ph[n] by {
      forall e | e in r
        ensures e in next
      {
        var p :| 0 <= p < |r| && r[p] == e;
        assert next[if p < k then p else p + 1] == e;
      }
      assert next[k] == ph[n];
    }
    if DistinctIndices(ph[..n + 1]) {
      forall p | 0 <= p < |r|
        ensures r[p].index != ph[n].index
      {
        assert r[p] in ph[..n];
        var q :| 0 <= q < n && ph[q] == r[p];
        assert ph[..n + 1][q] == ph[q] && ph[..n + 1][n] == ph[n];
      }
      forall p, q | 0 <= p < q < n
        ensures ph[..n][p].index != ph[..n][q].index
      {
        assert ph[..n][p] == ph[..n + 1][p] && ph[..n][q] == ph[..n + 1][q];
      }
    }
  }

  // ----- the sweep ---------------------------------------------------------------

  predicate IsData(e: Extent, l: seq<Mapping>) { e.index < |l| && !l[e.index].zeroed }

  /** `end` is the largest end among the DATA (or all) extents before position i. */
  ghost predicate MaxEnd(ph: seq<Extent>, l: seq<Mapping>, i: nat, end: nat, dataOnly: bool)
    requires i <= |ph|
  {
    && (forall p :: 0 <= p < i && (!dataOnly || IsData(ph[p], l)) ==> ph[p].end <= end)
    && (end == 0 || exists p :: 0 <= p < i && (!dataOnly || IsData(ph[p], l)) && ph[p].end == end)
  }

  ghost predicate Ordered(ph: seq<Extent>) {
    ByStart(ph) && forall p :: 0 <= p < |ph| ==> ph[p].start < ph[p].end
  }

  /** Some other extent meets the one at position i. */
  ghost predicate Shared(ph: seq<Extent>, i: nat)
    requires i < |ph|
  {
    exists q :: 0 <= q < |ph| && q != i && Meets(ph[q], ph[i])
  }

  ghost predicate Swept(ph: seq<Extent>, l: seq<Mapping>, n: nat) {
    && Extents(ph, l, n) && ByStart(ph)
    && (forall i :: 0 <= i < |l| ==> l[i].length > 0)
    && (forall p :: 0 <= p < |ph| ==> ExtentOf(ph[p], l, n))
    && Ordered(ph)
  }

  /** In start order, an extent is shared exactly when an earlier one reaches
      past its start or the next one starts before its end. */
  lemma {:induction false} SharedByNeighbours(ph: seq<Extent>, l: seq<Mapping>, n: nat, i: nat, priorEnd: nat)
    requires Swept(ph, l, n) && i < |ph| && MaxEnd(ph, l, i, priorEnd, false)
    ensures Shared(ph, i) <==> ph[i].start < priorEnd || (i + 1 < |ph| && ph[i + 1].start < ph[i].end)
  {
    assert ph[i].start < ph[i].end;
    if ph[i].start < priorEnd {
      var p :| 0 <= p < i && ph[p].end == priorEnd;
      assert Meets(ph[p], ph[i]);
    }
    if i + 1 < |ph| && ph[i + 1].start < ph[i].end {
      assert Meets(ph[i + 1], ph[i]);
    }
    if Shared(ph, i) {
      var q :| 0 <= q < |ph| && q != i && Meets(ph[q], ph[i]);
      if q > i { assert ph[i + 1].start <= ph[q].start; }
    }
  }

  lemma {:induction false} SharedIsNotExclusive(ph: seq<Extent>, l: seq<Mapping>, n: nat, i: nat)
    requires Swept(ph, l, n) && i < |ph|
    ensures Shared(ph, i) <==> !Exclusive(l, ph[i].index, n)
  {
    var k := ph[i].index;
    if Shared(ph, i) {
      var q :| 0 <= q < |ph| && q != i && Meets(ph[q], ph[i]);
      assert ph[q].index != k by { if q < i { assert ph[q].index != ph[i].index; } }
      assert Overlap(l[k], l[ph[q].index]);
    }
    if !Exclusive(l, k, n) {
      var j :| 0 <= j < |l| && j != k && Candidate(l[j], n) && Overlap(l[k], l[j]);
      var e := Extent(l[j].moffset, l[j].moffset + l[j].length, j);
      assert e in ph;
      var q :| 0 <= q < |ph| && ph[q] == e;
      assert Meets(ph[q], ph[i]);
    }
  }

  /** Two DATA extents among the first i positions meet. */
  ghost predicate AliasBefore(ph: seq<Extent>, l: seq<Mapping>, i: nat)
    requires i <= |ph|
  {
    exists p, q :: 0 <= p < q < i && DataMeet(ph, l, p, q)
  }

  predicate DataMeet(ph: seq<Extent>, l: seq<Mapping>, p: nat, q: nat)
    requires p < |ph| && q < |ph|
  {
    IsData(ph[p], l) && IsData(ph[q], l) && Meets(ph[p], ph[q])
  }

  /** The extent of mapping i has a position in start order. */
  lemma {:induction false} Position(ph: seq<Extent>, l: seq<Mapping>, n: nat, i: nat) returns (p: nat)
    requires Swept(ph, l, n) && i < |l| && Candidate(l[i], n)
    ensures p < |ph| && ph[p] == Extent(l[i].moffset, l[i].moffset + l[i].length, i)
  {
    var e := Extent(l[i].moffset, l[i].moffset + l[i].length, i);
    assert e in ph;
    p :| 0 <= p < |ph| && ph[p] == e;
  }

  lemma {:induction false} AliasHasPositions(ph: seq<Extent>, l: seq<Mapping>, n: nat)
    requires Swept(ph, l, n) && Alias(l)
    ensures AliasBefore(ph, l, |ph|)
  {
    var i, j :| 0 <= i < j < |l| && !l[i].zeroed && !l[j].zeroed && Overlap(l[i], l[j]);
    var p := Position(ph, l, n, i);
    var q := Position(ph, l, n, j);
    if p < q { assert DataMeet(ph, l, p, q); } else { assert DataMeet(ph, l, q, p); }
  }

  lemma {:induction false} PositionsAlias(ph: seq<Extent>, l: seq<Mapping>, n: nat)
    requires Swept(ph, l, n) && AliasBefore(ph, l, |ph|)
    ensures Alias(l)
  {
    var p, q :| 0 <= p < q < |ph| && DataMeet(ph, l, p, q);
    var i, j := ph[p].index, ph[q].index;
    assert Overlap(l[i], l[j]) && Overlap(l[j], l[i]);
  }

  /** A DATA extent aliases an earlier one exactly when it starts before the
      largest DATA end so far. */
  lemma {:induction false} AliasStep(ph: seq<Extent>, l: seq<Mapping>, i: nat, priorDataEnd: nat)
    requires Ordered(ph) && i < |ph| && MaxEnd(ph, l, i, priorDataEnd, true) && !AliasBefore(ph, l, i)
    ensures AliasBefore(ph, l, i + 1) <==> IsData(ph[i], l) && ph[i].start < priorDataEnd
  {
    if IsData(ph[i], l) && ph[i].start < priorDataEnd {
      var p :| 0 <= p < i && IsData(ph[p], l) && ph[p].end == priorDataEnd;
      assert DataMeet(ph, l, p, i);
    }
    if AliasBefore(ph, l, i + 1) {
      var p, q :| 0 <= p < q < i + 1 && DataMeet(ph, l, p, q);
      assert q == i;
    }
  }

  lemma {:induction false} DataEndStep(ph: seq<Extent>, l: seq<Mapping>, i: nat, priorDataEnd: nat)
    requires Ordered(ph) && i < |ph| && MaxEnd(ph, l, i, priorDataEnd, true)
    requires IsData(ph[i], l) ==> ph[i].start >= priorDataEnd
    ensures MaxEnd(ph, l, i + 1, if IsData(ph[i], l) then ph[i].end else priorDataEnd, true)
  {
    if !IsData(ph[i], l) && priorDataEnd != 0 {
      var p :| 0 <= p < i && IsData(ph[p], l) && ph[p].end == priorDataEnd;
      assert 0 <= p < i + 1 && IsData(ph[p], l) && ph[p].end == priorDataEnd;
    }
  }

  lemma {:induction false} MaxEndStep(ph: seq<Extent>, l: seq<Mapping>, i: nat, priorEnd: nat)
    requires i < |ph| && MaxEnd(ph, l, i, priorEnd, false)
    ensures MaxEnd(ph, l, i + 1, if priorEnd < ph[i].end then ph[i].end else priorEnd, false)
  {
    if !(priorEnd < ph[i].end) && priorEnd != 0 {
      var p :| 0 <= p < i && ph[p].end == priorEnd;
      assert 0 <= p < i + 1 && ph[p].end == priorEnd;
    }
  }

  /** The first pass of finish: ZERO outside the payload loses its offset, every
      other mapping contributes its extent. */
  method CollectExtents(l: seq<Mapping>, n: nat) returns (result: seq<Mapping>, ph: seq<Extent>)
    ensures |result| == |l|
    ensures forall i :: 0 <= i < |l| ==> result[i] == if Candidate(l[i], n) then l[i] else l[i].(moffset := NO_PHYSICAL)
    ensures Extents(ph, l, n)
  {
    result, ph := [], [];
    var i := 0;
    while i < |l|
      invariant 0 <= i <= |l| && |result| == i
      invariant forall k :: 0 <= k < i ==>
                result[k] == if Candidate(l[k], n) then l[k] else l[k].(moffset := NO_PHYSICAL)
      invariant DistinctIndices(ph)
      invariant forall e :: e in ph ==> ExtentOf(e, l, n) && e.index < i
      invariant forall k :: 0 <= k < i && Candidate(l[k], n) ==>
                Extent(l[k].moffset, l[k].moffset + l[k].length, k) in ph
    {
      var m := l[i];
      if m.zeroed && (m.moffset == NO_PHYSICAL || m.moffset > n || m.length > n - m.moffset) {
        result := result + [m.(moffset := NO_PHYSICAL)];
      } else {
        result := result + [m];
        assert forall p :: 0 <= p < |ph| ==> ph[p] in ph;
        ph := ph + [Extent(m.moffset, m.moffset + m.length, i)];
      }
      i := i + 1;
    }
  }

  /** Progress of the sweep: the first i extents' mappings are final. */
  ghost predicate SweptTo(result: seq<Mapping>, ph: seq<Extent>, l: seq<Mapping>, n: nat, i: nat)
    requires Swept(ph, l, n) && i <= |ph|
  {
    && |result| == |l|
    && (forall k :: 0 <= k < |l| && !Candidate(l[k], n) ==> result[k] == l[k].(moffset := NO_PHYSICAL))
    && (forall p :: 0 <= p < i ==> result[ph[p].index] == Normalized(l, n)[ph[p].index])
    && (forall p :: i <= p < |ph| ==> result[ph[p].index] == l[ph[p].index])
  }

  lemma {:induction false} SweptAll(result: seq<Mapping>, ph: seq<Extent>, l: seq<Mapping>, n: nat)
    requires Swept(ph, l, n) && SweptTo(result, ph, l, n, |ph|)
    ensures result == Normalized(l, n)
  {
    forall k | 0 <= k < |l|
      ensures result[k] == Normalized(l, n)[k]
    {
      if Candidate(l[k], n) {
        var e := Extent(l[k].moffset, l[k].moffset + l[k].length, k);
        assert e in ph;
        var p :| 0 <= p < |ph| && ph[p] == e;
        assert result[ph[p].index] == Normalized(l, n)[ph[p].index];
      }
    }
  }

  lemma {:induction false} SweptStep(result: seq<Mapping>, next: seq<Mapping>, ph: seq<Extent>, l: seq<Mapping>,
                                     n: nat, i: nat)
    requires Swept(ph, l, n) && i < |ph| && SweptTo(result, ph, l, n, i)
    requires next == if l[ph[i].index].zeroed && !Exclusive(l, ph[i].index, n)
                     then result[ph[i].index := result[ph[i].index].(moffset := NO_PHYSICAL)] else result
    ensures SweptTo(next, ph, l, n, i + 1)
  {
    forall p | 0 <= p < |ph| && p != i
      ensures ph[p].index != ph[i].index
    {
      if p < i { assert ph[p].index != ph[i].index; } else { assert ph[i].index != ph[p].index; }
    }
  }

  ghost predicate SweepInv(ph: seq<Extent>, l: seq<Mapping>, n: nat, i: nat,
                           priorEnd: nat, priorDataEnd: nat, result: seq<Mapping>)
    requires Swept(ph, l, n)
  {
    && i <= |ph|
    && MaxEnd(ph, l, i, priorEnd, false) && MaxEnd(ph, l, i, priorDataEnd, true)
    && !AliasBefore(ph, l, i) && SweptTo(result, ph, l, n, i)
  }

  /** One iteration of the sweep that does not throw. */
  lemma {:induction false} SweepStep(ph: seq<Extent>, l: seq<Mapping>, n: nat, i: nat, priorEnd: nat, priorDataEnd: nat,
                  result: seq<Mapping>, next: seq<Mapping>)
    requires i < |ph| && Swept(ph, l, n) && SweepInv(ph, l, n, i, priorEnd, priorDataEnd, result)
    requires l[ph[i].index].zeroed || ph[i].start >= priorDataEnd
    requires next == if && l[ph[i].index].zeroed
                        && (ph[i].start < priorEnd || (i + 1 < |ph| && ph[i + 1].start < ph[i].end))
                     then result[ph[i].index := result[ph[i].index].(moffset := NO_PHYSICAL)] else result
    ensures SweepInv(ph, l, n, i + 1, if priorEnd < ph[i].end then ph[i].end else priorEnd,
                     if l[ph[i].index].zeroed then priorDataEnd else ph[i].end, next)
  {
    AliasStep(ph, l, i, priorDataEnd);
    DataEndStep(ph, l, i, priorDataEnd);
    MaxEndStep(ph, l, i, priorEnd);
    SharedByNeighbours(ph, l, n, i, priorEnd);
    SharedIsNotExclusive(ph, l, n, i);
    SweptStep(result, next, ph, l, n, i);
  }

  lemma {:induction false} SweepThrow(ph: seq<Extent>, l: seq<Mapping>, n: nat, i: nat, priorEnd: nat,
                                      priorDataEnd: nat, result: seq<Mapping>)
    requires i < |ph| && Swept(ph, l, n) && SweepInv(ph, l, n, i, priorEnd, priorDataEnd, result)
    requires !l[ph[i].index].zeroed && ph[i].start < priorDataEnd
    ensures Alias(l)
  {
    AliasStep(ph, l, i, priorDataEnd);
    AliasGrows(ph, l, i + 1);
    PositionsAlias(ph, l, n);
  }

  lemma {:induction false} SweepEnd(ph: seq<Extent>, l: seq<Mapping>, n: nat, priorEnd: nat, priorDataEnd: nat,
                                    result: seq<Mapping>)
    requires Swept(ph, l, n) && SweepInv(ph, l, n, |ph|, priorEnd, priorDataEnd, result)
    ensures !Alias(l) && result == Normalized(l, n)
  {
    if Alias(l) { AliasHasPositions(ph, l, n); }
    SweptAll(result, ph, l, n);
  }

  lemma {:induction false} SweepStart(ph: seq<Extent>, unsorted: seq<Extent>, l: seq<Mapping>, n: nat,
                                      result: seq<Mapping>)
    requires forall i :: 0 <= i < |l| ==> l[i].length > 0
    requires Extents(unsorted, l, n) && SameExtents(unsorted, ph) && ByStart(ph) && |result| == |l|
    requires forall i :: 0 <= i < |l| ==>
              result[i] == if Candidate(l[i], n) then l[i] else l[i].(moffset := NO_PHYSICAL)
    ensures Swept(ph, l, n) && SweepInv(ph, l, n, 0, 0, 0, result)
  {
    assert forall p :: 0 <= p < |ph| ==> ph[p] in ph;
  }

  /** The body of the sweep for extent i. */
  method SweepOne(ph: seq<Extent>, l: seq<Mapping>, ghost n: nat, i: nat, priorEnd: nat, priorDataEnd: nat,
                  result: seq<Mapping>)
    returns (thrown: bool, end: nat, dataEnd: nat, next: seq<Mapping>)
    requires i < |ph| && Swept(ph, l, n) && SweepInv(ph, l, n, i, priorEnd, priorDataEnd, result)
    ensures thrown ==> Alias(l)
    ensures !thrown ==> SweepInv(ph, l, n, i + 1, end, dataEnd, next)
  {
    var e := ph[i];
    thrown, dataEnd, next := false, priorDataEnd, result;
    if !l[e.index].zeroed {
      if e.start < priorDataEnd {
        SweepThrow(ph, l, n, i, priorEnd, priorDataEnd, result);
        return true, 0, 0, [];
      }
      dataEnd := e.end;
    } else if e.start < priorEnd || (i + 1 < |ph| && ph[i + 1].start < e.end) {
      next := result[e.index := result[e.index].(moffset := NO_PHYSICAL)];
    }
    end := if priorEnd < e.end then e.end else priorEnd;
    SweepStep(ph, l, n, i, priorEnd, priorDataEnd, result, next);
  }

  method Sweep(ph: seq<Extent>, l: seq<Mapping>, ghost n: nat, start: seq<Mapping>) returns (r: Option<seq<Mapping>>)
    requires Swept(ph, l, n) && SweepInv(ph, l, n, 0, 0, 0, start)
    ensures r.None? <==> Alias(l)
    ensures r.Some? ==> r.value == Normalized(l, n)
  {
    var priorEnd: nat, priorDataEnd: nat, i: nat, result := 0, 0, 0, start;
    while i < |ph|
      invariant SweepInv(ph, l, n, i, priorEnd, priorDataEnd, result)
    {
      var thrown;
      thrown, priorEnd, priorDataEnd, result := SweepOne(ph, l, n, i, priorEnd, priorDataEnd, result);
      if thrown { return None; }
      i := i + 1;
    }
    SweepEnd(ph, l, n, priorEnd, priorDataEnd, result);
    r := Some(result);
  }

  /** finish: throws exactly when two live DATA extents share payload, and
      otherwise leaves each ZERO its backing exactly when that is its own. */
  method Finish(l: seq<Mapping>, n: nat) returns (r: Option<seq<Mapping>>)
    requires forall i :: 0 <= i < |l| ==> l[i].length > 0
    ensures r.None? <==> Alias(l)
    ensures r.Some? ==> r.value == Normalized(l, n)
  {
    var result, unsorted := CollectExtents(l, n);
    var ph := SortByStart(unsorted);
    SweepStart(ph, unsorted, l, n, result);
    r := Sweep(ph, l, n, result);
  }

  lemma {:induction false} AliasGrows(ph: seq<Extent>, l: seq<Mapping>, i: nat)
    requires i <= |ph| && AliasBefore(ph, l, i)
    ensures AliasBefore(ph, l, |ph|)
  {
    var p, q :| 0 <= p < q < i && DataMeet(ph, l, p, q);
    assert DataMeet(ph, l, p, q);
  }

  /** All surviving backings are pairwise disjoint. */
  lemma {:induction false} SurvivorsDisjoint(l: seq<Mapping>, n: nat, i: nat, j: nat)
    requires !Alias(l) && i < j < |l| && n < NO_PHYSICAL
    requires Normalized(l, n)[i].moffset != NO_PHYSICAL && Normalized(l, n)[j].moffset != NO_PHYSICAL
    ensures !Overlap(Normalized(l, n)[i], Normalized(l, n)[j])
  {
    if !l[i].zeroed && !l[j].zeroed {
      assert !Overlap(l[i], l[j]);
    } else if l[i].zeroed {
      assert Exclusive(l, i, n);
      assert Candidate(l[j], n);
    } else {
      assert Exclusive(l, j, n);
    }
  }

  /** Lists that differ only in where ZERO mappings point mean the same. */
  ghost predicate SameShape(a: seq<Mapping>, b: seq<Mapping>) {
    |a| == |b| && forall i :: 0 <= i < |a| ==> a[i] == b[i] || (a[i].zeroed && b[i] == a[i].(moffset := b[i].moffset))
  }

  lemma {:induction false} SameShapeMeaning(a: seq<Mapping>, b: seq<Mapping>, s: int)
    requires SameShape(a, b)
    ensures Resolve(a, s) == Resolve(b, s)
  {
    if |a| > 0 { SameShapeMeaning(a[..|a| - 1], b[..|b| - 1], s); }
  }

  /** The live index of a log; None when some record is refused. */
  method ReplayRecords(log: seq<Mapping>, sectors: nat, dataSectors: nat) returns (r: Option<seq<Mapping>>)
    requires |log| <= MAX_LOG_RECORDS && dataSectors < NO_PHYSICAL
    ensures r.Some? <==> Acceptable(log, sectors, dataSectors)
    ensures r.Some? ==> r.value == Live(log) && LiveOk(r.value, sectors, dataSectors)
  {
    var live: seq<Mapping> := [];
    var n: nat := 0;
    while n < |log|
      invariant n <= |log| && live == Live(log[..n]) && LiveOk(live, sectors, dataSectors)
      invariant Acceptable(log[..n], sectors, dataSectors)
    {
      assert log[..n + 1][..n] == log[..n];
      var next := Append(live, log[n], sectors, dataSectors);
      if next.None? {
        assert log[..n + 1] == log[..n] + [log[n]];
        return None;
      }
      assert log[..n][..n] == log[..n];
      AcceptableStep(log, n, sectors, dataSectors);
      live := next.value;
      n := n + 1;
      LiveIsOk(log[..n], sectors, dataSectors);
    }
    assert log[..n] == log;
    r := Some(live);
  }

  /** A whole replay: refused exactly for a malformed or oversized log or for
      aliased live DATA; otherwise every sector reads as the log says. */
  method Replay(log: seq<Mapping>, sectors: nat, dataSectors: nat) returns (r: Option<seq<Mapping>>)
    requires |log| <= MAX_LOG_RECORDS && dataSectors < NO_PHYSICAL
    ensures r.Some? <==> Acceptable(log, sectors, dataSectors) && !Alias(Live(log))
    ensures r.Some? ==> r.value == Normalized(Live(log), dataSectors)
    ensures r.Some? ==> forall s: int :: Resolve(r.value, s) == Retag(Resolve(log, s), 0)
  {
    var live := ReplayRecords(log, sectors, dataSectors);
    if live.None? { return None; }
    r := Finish(live.value, dataSectors);
    if r.Some? {
      forall s: int
        ensures Resolve(r.value, s) == Retag(Resolve(log, s), 0)
      {
        LiveMeaning(log, sectors, dataSectors, s);
        SameShapeMeaning(live.value, r.value, s);
      }
    }
  }

  lemma {:induction false} AcceptableStep(log: seq<Mapping>, n: nat, sectors: nat, dataSectors: nat)
    requires n < |log| <= MAX_LOG_RECORDS && Acceptable(log[..n], sectors, dataSectors)
    requires CleanPadding(log[n]) || (!Padding(log[n]) && ValidRecord(log[n], sectors, dataSectors))
    requires |Live(log[..n + 1])| <= MAX_INDEX
    ensures Acceptable(log[..n + 1], sectors, dataSectors)
  {
    var l := log[..n + 1];
    forall k | 0 <= k <= |l|
      ensures |Live(l[..k])| <= MAX_INDEX
    {
      if k <= n { assert l[..k] == log[..n][..k]; } else { assert l[..k] == l; }
    }
    assert forall i :: 0 <= i < n ==> l[i] == log[..n][i];
  }
}
