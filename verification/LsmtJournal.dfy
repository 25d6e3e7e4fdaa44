/** The LSMT upper's log pair: an admission check that mirrors replay, and logs
    that reopen wherever they are cut. */
module LsmtJournal {
  import opened Segments
  import opened SectorArray
  import opened Codec
  import opened HybridReplay
  import opened LsmtReplay

  datatype Range = Range(start: nat, end: nat)

  /** The interval partition of an index. */
  function RangesOf(l: seq<Mapping>): (r: seq<Range>)
    ensures |r| == |l| && forall i :: 0 <= i < |l| ==> r[i] == Range(l[i].offset, l[i].End())
  {
    seq(|l|, i requires 0 <= i < |l| => Range(l[i].offset, l[i].End()))
  }

  function CutRangeOne(r: Range, lo: nat, hi: nat): seq<Range>
    requires lo <= hi
  {
    if r.end <= lo || r.start >= hi then [r]
    else if r.start < lo && r.end > hi then [Range(r.start, lo), Range(hi, r.end)]
    else if r.start < lo then [Range(r.start, lo)]
    else if r.end > hi then [Range(hi, r.end)]
    else []
  }

  lemma {:induction false} RangesCutOne(m: Mapping, lo: nat, hi: nat)
    requires lo <= hi
    ensures RangesOf(CutOne(LsmtMode, m, lo, hi)) == CutRangeOne(Range(m.offset, m.End()), lo, hi)
  {
  }

  lemma {:induction false} RangesConcat(a: seq<Mapping>, b: seq<Mapping>)
    ensures RangesOf(a + b) == RangesOf(a) + RangesOf(b)
  {
  }

  /** The erase loop over the partition, keeping remainders. */
  method RangesRun(ranges: seq<Range>, ghost l: seq<Mapping>, first: nat, lo: nat, hi: nat)
    returns (retained: seq<Range>, last: nat)
    requires ranges == RangesOf(l) && first <= |l| && lo <= hi
    ensures first <= last <= |l| && (last < |l| ==> l[last].offset >= hi)
    ensures retained == RangesOf(CutRange(LsmtMode, l, first, last, lo, hi))
  {
    last, retained := first, [];
    while last < |ranges| && ranges[last].start < hi
      invariant first <= last <= |ranges|
      invariant retained == RangesOf(CutRange(LsmtMode, l, first, last, lo, hi))
    {
      RangesCutOne(l[last], lo, hi);
      RangesConcat(CutRange(LsmtMode, l, first, last, lo, hi), CutOne(LsmtMode, l[last], lo, hi));
      retained := retained + CutRangeOne(ranges[last], lo, hi);
      last := last + 1;
    }
  }

  lemma {:induction false} RangesCutMiddle(l: seq<Mapping>, first: nat, last: nat, lo: nat, hi: nat)
    requires Index(l) && lo <= hi && first <= last <= |l|
    requires first > 0 ==> l[first - 1].End() <= lo
    requires last < |l| ==> l[last].offset >= hi
    ensures RangesOf(Cut(LsmtMode, l, lo, hi)) ==
            RangesOf(l)[..first] + RangesOf(CutRange(LsmtMode, l, first, last, lo, hi)) + RangesOf(l)[last..]
  {
    CutAsRange(LsmtMode, l, first, last, lo, hi);
    RangesThree(l, first, CutRange(LsmtMode, l, first, last, lo, hi), last);
  }

  lemma {:induction false} RangesThree(l: seq<Mapping>, first: nat, mid: seq<Mapping>, last: nat)
    requires first <= last <= |l|
    ensures RangesOf(l[..first] + mid + l[last..]) == RangesOf(l)[..first] + RangesOf(mid) + RangesOf(l)[last..]
  {
    RangesConcat(l[..first] + mid, l[last..]);
    RangesConcat(l[..first], mid);
    assert RangesOf(l[..first]) == RangesOf(l)[..first];
    assert RangesOf(l[last..]) == RangesOf(l)[last..];
  }

  /** The part of admission that walks the partition: erases what the new range
      meets, keeps its remainders. `l` is the index replay would have. */
  method CutRanges(ranges: seq<Range>, ghost l: seq<Mapping>, lo: nat, hi: nat) returns (r: seq<Range>)
    requires Index(l) && ranges == RangesOf(l) && lo <= hi
    ensures r == RangesOf(Cut(LsmtMode, l, lo, hi))
  {
    var first: nat := 0;
    while first < |ranges| && ranges[first].end <= lo
      invariant first <= |ranges|
      invariant first > 0 ==> ranges[first - 1].end <= lo
    {
      first := first + 1;
    }
    var retained, last := RangesRun(ranges, l, first, lo, hi);
    RangesCutMiddle(l, first, last, lo, hi);
    r := ranges[..first] + retained + ranges[last..];
  }

  lemma {:induction false} RangesInsert(c: seq<Mapping>, m: Mapping, k: nat)
    requires k <= |c| && (forall i :: 0 <= i < k ==> c[i].offset < m.offset) && (k < |c| ==> c[k].offset >= m.offset)
    ensures RangesOf(Insert(c, m)) == RangesOf(c)[..k] + [Range(m.offset, m.End())] + RangesOf(c)[k..]
  {
    assert k == Rank(c, m.offset);
    RangesConcat(c[..k] + [m], c[k..]);
    RangesConcat(c[..k], [m]);
  }

  /** The admission check of append: the partition after the record, None above
      the limit. It is exactly the partition replay of the longer log has. */
  method Admit(ranges: seq<Range>, ghost l: seq<Mapping>, m: Mapping) returns (r: Option<seq<Range>>)
    requires Index(l) && ranges == RangesOf(l)
    ensures r.Some? <==> |Overlay(LsmtMode, l, m)| <= MAX_INDEX
    ensures r.Some? ==> r.value == RangesOf(Overlay(LsmtMode, l, m))
  {
    var cut := CutRanges(ranges, l, m.offset, m.End());
    var k: nat := 0;
    while k < |cut| && cut[k].start < m.offset
      invariant k <= |cut|
      invariant forall i :: 0 <= i < k ==> cut[i].start < m.offset
    {
      k := k + 1;
    }
    RangesInsert(Cut(LsmtMode, l, m.offset, m.End()), m, k);
    var next := cut[..k] + [Range(m.offset, m.End())] + cut[k..];
    r := if |next| > MAX_INDEX then None else Some(next);
  }

  // ----- physical exclusiveness, sector by sector -----------------------------------

  ghost predicate DataInjective(l: seq<Mapping>) {
    forall s: int, t: int :: s != t && Resolve(l, s).Data? && Resolve(l, t).Data? ==>
              Resolve(l, s).phys != Resolve(l, t).phys
  }

  lemma {:induction false} InjectiveNoAlias(l: seq<Mapping>)
    requires Index(l) && DataInjective(l)
    ensures !Alias(l)
  {
    if Alias(l) {
      var i, j :| 0 <= i < j < |l| && !l[i].zeroed && !l[j].zeroed && Overlap(l[i], l[j]);
      var p := if l[i].moffset < l[j].moffset then l[j].moffset else l[i].moffset;
      ResolveAt(l, i, l[i].offset + (p - l[i].moffset));
      ResolveAt(l, j, l[j].offset + (p - l[j].moffset));
    }
  }

  lemma {:induction false} NoAliasInjective(l: seq<Mapping>)
    requires Index(l) && !Alias(l)
    ensures DataInjective(l)
  {
    forall s: int, t: int | s != t && Resolve(l, s).Data? && Resolve(l, t).Data?
      ensures Resolve(l, s).phys != Resolve(l, t).phys
    {
      var i := ResolveWitness(l, s);
      var j := ResolveWitness(l, t);
      if i < j { assert !Overlap(l[i], l[j]); }
      if j < i { assert !Overlap(l[j], l[i]); }
    }
  }

  /** DATA lies below `end`. */
  lemma {:induction false} DataBelow(l: seq<Mapping>, sectors: nat, end: nat, s: int)
    requires SegsOk(l, sectors, end) && Resolve(l, s).Data?
    ensures DATA_START <= Resolve(l, s).phys < end && Resolve(l, s).tag == 0 && 0 <= s < sectors
  {
    var k := ResolveWitness(l, s);
  }

  /** A record over fresh payload, or ZERO, keeps DATA exclusive. */
  lemma {:induction false} OverlayInjective(l: seq<Mapping>, m: Mapping, sectors: nat, end: nat)
    requires SegsOk(l, sectors, end) && DataInjective(l) && (m.zeroed || m.moffset >= end)
    ensures DataInjective(Overlay(LsmtMode, l, m))
  {
    var r := Overlay(LsmtMode, l, m);
    forall s: int, t: int | s != t && Resolve(r, s).Data? && Resolve(r, t).Data?
      ensures Resolve(r, s).phys != Resolve(r, t).phys
    {
      ResolveOverlay(LsmtMode, l, m, s);
      ResolveOverlay(LsmtMode, l, m, t);
      if !m.Covers(s) { DataBelow(l, sectors, end, s); }
      if !m.Covers(t) { DataBelow(l, sectors, end, t); }
    }
  }

  // ----- logs that reopen anywhere ------------------------------------------------------

  /** The log replays within every limit, and from record `since` on every cut
      of it leaves DATA exclusive. */
  ghost predicate Journal(log: seq<Mapping>, since: nat, sectors: nat, size: nat) {
    && since <= |log| && Replayable(log, sectors, size)
    && (forall n :: since <= n <= |log| ==> DataInjective(LiveIndex(log[..n])))
  }

  /** An index file of so many bytes holds this many complete records. */
  function CompleteRecords(bytes: nat): nat {
    if bytes < SPACE then 0 else (bytes - SPACE) / 16
  }

  /** The complete records of an index file; a torn last one is left out. */
  function CompleteLog(index: Bytes): (r: seq<Mapping>)
    requires |index| >= SPACE
    ensures |r| == CompleteRecords(|index|)
  {
    DecodeAll(index[SPACE..SPACE + 16 * CompleteRecords(|index|)])
  }

  /** An index file of this log, cut at some byte after its header. */
  ghost predicate CutOf(index: Bytes, log: seq<Mapping>) {
    && |index| >= SPACE && index[SPACE..] <= EncodeAll(log)
    && (forall i :: 0 <= i < |log| ==> Encodable(log[i]))
  }

  lemma {:induction false} CutLog(index: Bytes, log: seq<Mapping>)
    requires CutOf(index, log)
    ensures CompleteRecords(|index|) <= |log| && CompleteLog(index) == log[..CompleteRecords(|index|)]
  {
    var n := CompleteRecords(|index|);
    DecodeCut(log, n);
    assert index[SPACE..SPACE + 16 * n] == index[SPACE..][..16 * n] == EncodeAll(log)[..16 * n];
  }

  /** Cut at any byte after record `since`, the index file reopens: only the torn
      last record is lost, every limit holds, and what comes back is exactly what
      the complete records mean. */
  method ReopenCut(index: Bytes, sectors: nat, size: nat, ghost log: seq<Mapping>, ghost since: nat)
    returns (r: seq<Mapping>)
    requires Journal(log, since, sectors, size) && CutOf(index, log) && since <= CompleteRecords(|index|)
    ensures var n := CompleteRecords(|index|);
      && n <= |log| && r == LiveIndex(log[..n]) && SegsOk(r, sectors, size) && DataInjective(r) && |r| <= MAX_INDEX
      && forall s: int :: Resolve(r, s) == Meaning(log[..n], s)
  {
    var read := CompleteLog(index);
    CutLog(index, log);
    ghost var n := CompleteRecords(|index|);
    CutReplays(log, n, since, sectors, size);
    var result := ReplayLog(read, sectors, size);
    r := result.value;
    LiveSegsOk(log[..n], sectors, size);
    assert log[..n][..n] == log[..n];
  }

  lemma {:induction false} CutWithinLimits(log: seq<Mapping>, n: nat, since: nat, sectors: nat, size: nat)
    requires Journal(log, since, sectors, size) && n <= |log|
    ensures Replayable(log[..n], sectors, size)
  {
    forall k | 0 <= k <= n
      ensures |LiveIndex(log[..n][..k])| <= MAX_INDEX
    {
      assert log[..n][..k] == log[..k];
    }
  }

  lemma {:induction false} CutReplays(log: seq<Mapping>, n: nat, since: nat, sectors: nat, size: nat)
    requires Journal(log, since, sectors, size) && since <= n <= |log|
    ensures Replayable(log[..n], sectors, size) && !Alias(LiveIndex(log[..n]))
  {
    CutWithinLimits(log, n, since, sectors, size);
    LiveSegsOk(log[..n], sectors, size);
    InjectiveNoAlias(LiveIndex(log[..n]));
  }

  /** Prefixes of a longer log. */
  lemma {:induction false} LongerLog(log: seq<Mapping>, m: Mapping, n: nat)
    requires n <= |log| + 1
    ensures (log + [m])[..n] == if n <= |log| then log[..n] else log + [m]
  {
  }

  lemma {:induction false} LiveOfLonger(log: seq<Mapping>, m: Mapping)
    requires !Skipped(m) && Norm(m) == m
    ensures LiveIndex(log + [m]) == Overlay(LsmtMode, LiveIndex(log), m)
  {
    assert (log + [m])[..|log|] == log;
  }

  /** An admitted record over fresh payload extends the journal. */
  lemma {:induction false} JournalAppend(log: seq<Mapping>, since: nat, m: Mapping, sectors: nat, size: nat,
                                         more: nat, end: nat)
    requires Journal(log, since, sectors, size) && |log| < MAX_LOG_RECORDS && size <= end && size <= more
    requires ValidEntry(m, sectors, more) && Norm(m) == m && (m.zeroed || m.moffset >= end)
    requires sectors <= MAX_OFFSET && |Overlay(LsmtMode, LiveIndex(log), m)| <= MAX_INDEX
    ensures Journal(log + [m], since, sectors, more)
    ensures LiveIndex(log + [m]) == Overlay(LsmtMode, LiveIndex(log), m)
  {
    LiveOfLonger(log, m);
    LiveSegsOk(log, sectors, size);
    assert log[..|log|] == log;
    OverlayInjective(LiveIndex(log), m, sectors, size);
    forall n | 0 <= n <= |log + [m]|
      ensures |LiveIndex((log + [m])[..n])| <= MAX_INDEX
      ensures since <= n ==> DataInjective(LiveIndex((log + [m])[..n]))
    {
      LongerLog(log, m, n);
    }
  }

  lemma {:induction false} PrefixBefore(l: seq<Mapping>, n: nat)
    requires Index(l) && n < |l|
    ensures Index(l[..n]) && Within(l[..n], 0, l[n].offset)
  {
    assert forall i :: 0 <= i < n ==> l[..n][i] == l[i];
  }

  lemma {:induction false} LiveOneMore(p: seq<Mapping>, m: Mapping)
    requires LiveIndex(p) == p && Index(p) && Within(p, 0, m.offset) && !Skipped(m) && Norm(m) == m
    ensures LiveIndex(p + [m]) == p + [m]
  {
    OverlayAtEnd(LsmtMode, p, m);
    LiveOfLonger(p, m);
  }

  /** An index written out in order replays to itself, cut anywhere. */
  lemma {:induction false} LiveOfPrefix(l: seq<Mapping>, n: nat, sectors: nat, size: nat) returns (q: seq<Mapping>)
    requires SegsOk(l, sectors, size) && sectors <= MAX_OFFSET && n <= |l|
    ensures q == l[..n] && LiveIndex(q) == q
  {
    q := [];
    assert LiveIndex(q) == q;
    hide LiveIndex;
    if n > 0 {
      var p := LiveOfPrefix(l, n - 1, sectors, size);
      var m := l[n - 1];
      PrefixBefore(l, n - 1);
      assert Fits(m, size, DATA_START) && m.End() <= sectors;
      LiveOneMore(p, m);
      q := p + [m];
    }
  }

  lemma {:induction false} LiveOfSegments(l: seq<Mapping>, sectors: nat, size: nat)
    requires SegsOk(l, sectors, size) && sectors <= MAX_OFFSET
    ensures LiveIndex(l) == l
  {
    var q := LiveOfPrefix(l, |l|, sectors, size);
    assert l[..|l|] == l;
  }

  lemma {:induction false} PrefixInjective(l: seq<Mapping>, n: nat)
    requires Index(l) && DataInjective(l) && n <= |l|
    ensures DataInjective(l[..n])
  {
    forall s: int
      ensures Resolve(l[..n], s) == Hole || Resolve(l[..n], s) == Resolve(l, s)
    {
      ResolveTake(l, n, s);
    }
  }

  /** Compaction: an exclusive index is a journal that reopens from its start. */
  lemma {:induction false} CompactJournal(l: seq<Mapping>, sectors: nat, size: nat)
    requires SegsOk(l, sectors, size) && DataInjective(l) && |l| <= MAX_INDEX && sectors <= MAX_OFFSET
    ensures Journal(l, 0, sectors, size) && LiveIndex(l) == l
    ensures forall s: int :: Meaning(l, s) == Resolve(l, s)
  {
    LiveOfSegments(l, sectors, size);
    forall n | 0 <= n <= |l|
      ensures |LiveIndex(l[..n])| <= MAX_INDEX && DataInjective(LiveIndex(l[..n]))
    {
      var q := LiveOfPrefix(l, n, sectors, size);
      PrefixInjective(l, n);
    }
    SegmentsAreEntries(l, sectors, size);
    forall s: int
      ensures Meaning(l, s) == Resolve(l, s)
    {
      LiveMeans(l, sectors, size, s);
    }
  }

  lemma {:induction false} SegmentsAreEntries(l: seq<Mapping>, sectors: nat, size: nat)
    requires SegsOk(l, sectors, size)
    ensures Entries(l, sectors, size)
  {
    forall i | 0 <= i < |l|
      ensures ValidEntry(l[i], sectors, size)
    {
      assert Fits(l[i], size, DATA_START);
    }
  }

  lemma {:induction false} JournalMore(log: seq<Mapping>, since: nat, sectors: nat, size: nat, sectors': nat,
                                       size': nat)
    requires Journal(log, since, sectors, size) && sectors <= sectors' && size <= size'
    ensures Journal(log, since, sectors', size')
  {
  }
}
