/** What a Hybrid upper keeps true between operations, and the single edits that
    keep it: a mapping over its payload, owned exclusively, described by a log. */
module HybridStore {
  import opened Segments
  import opened SectorArray
  import opened HybridReplay

  /** A mapping as a live Hybrid upper keeps it: untagged, and inside the payload
      unless it is an unbacked ZERO. */
  predicate EntryOk(m: Mapping, dataEnd: nat) {
    && m.tag == 0
    && (if m.moffset == NO_PHYSICAL then m.zeroed else DATA_START <= m.moffset && m.moffset + m.length <= dataEnd)
  }

  ghost predicate MapOk(l: seq<Mapping>, sectors: nat, dataEnd: nat) {
    && Index(l) && Within(l, 0, sectors) && |l| <= MAX_INDEX
    && forall i :: 0 <= i < |l| ==> EntryOk(l[i], dataEnd)
  }

  /** No payload sector is owned twice. */
  ghost predicate Injective(l: seq<Mapping>) {
    forall s: int, t: int :: s != t && Owner(l, s).Some? && Owner(l, t).Some? ==> Owner(l, s) != Owner(l, t)
  }

  /** The log replays, within every limit, to this mapping up to ZERO offsets. */
  ghost predicate LogOk(log: seq<Mapping>, l: seq<Mapping>, sectors: nat, dataEnd: nat) {
    Acceptable(log, sectors, dataEnd) && SameShape(Live(log), l)
  }

  ghost predicate Good(l: seq<Mapping>, log: seq<Mapping>, sectors: nat, dataEnd: nat) {
    && sectors <= MAX_OFFSET && DATA_START <= dataEnd <= MAX_FILE_SECTORS
    && MapOk(l, sectors, dataEnd) && Injective(l) && LogOk(log, l, sectors, dataEnd)
  }

  function Owned(l: seq<Mapping>, sectors: nat): set<int> {
    set s: int | 0 <= s < sectors && Owner(l, s).Some?
  }

  /** The log stays short: the bound compaction is there to keep. */
  predicate LogBound(log: seq<Mapping>, l: seq<Mapping>) {
    |log| <= 4096 || |log| <= 2 * |l| + 16
  }

  // ----- consequences ---------------------------------------------------------

  lemma {:induction false} MapOkBacked(l: seq<Mapping>, sectors: nat, dataEnd: nat)
    requires MapOk(l, sectors, dataEnd) && dataEnd <= MAX_FILE_SECTORS
    ensures Backed(l) && OwnersBelowSentinel(l) && LiveOk(l, sectors, dataEnd)
  {
  }

  /** DATA sectors are owned at the sector they read from, inside the payload. */
  lemma {:induction false} DataIsOwned(l: seq<Mapping>, sectors: nat, dataEnd: nat, s: int)
    requires MapOk(l, sectors, dataEnd) && dataEnd <= MAX_FILE_SECTORS
    ensures Resolve(l, s).Data? ==> Owner(l, s) == Some(Resolve(l, s).phys)
    ensures Owner(l, s).Some? ==> DATA_START <= Owner(l, s).value < dataEnd && 0 <= s < sectors
  {
    if Resolve(l, s) == Hole {
      OwnerHole(l, s);
    } else {
      var k := ResolveWitness(l, s);
    }
  }

  /** Extents of distinct backed mappings are disjoint. */
  lemma {:induction false} InjectiveDisjoint(l: seq<Mapping>, i: nat, j: nat)
    requires Index(l) && Injective(l) && i < |l| && j < |l| && i != j
    requires l[i].moffset != NO_PHYSICAL && l[j].moffset != NO_PHYSICAL
    ensures !Overlap(l[i], l[j])
  {
    if Overlap(l[i], l[j]) {
      var p := if l[i].moffset < l[j].moffset then l[j].moffset else l[i].moffset;
      ResolveAt(l, i, l[i].offset + (p - l[i].moffset));
      ResolveAt(l, j, l[j].offset + (p - l[j].moffset));
      assert false;
    }
  }

  /** Reopening: replay accepts the log, and every sector reads as the mapping
      in memory says. */
  lemma {:induction false} LogReplays(l: seq<Mapping>, log: seq<Mapping>, sectors: nat, dataEnd: nat)
    requires Good(l, log, sectors, dataEnd)
    ensures Acceptable(log, sectors, dataEnd) && !Alias(Live(log))
    ensures forall s: int :: Resolve(Normalized(Live(log), dataEnd), s) == Resolve(l, s) == Retag(Resolve(log, s), 0)
  {
    var live := Live(log);
    if Alias(live) {
      var i, j :| 0 <= i < j < |live| && !live[i].zeroed && !live[j].zeroed && Overlap(live[i], live[j]);
      assert l[i] == live[i] && l[j] == live[j];
      InjectiveDisjoint(l, i, j);
    }
    forall s: int
      ensures Resolve(Normalized(live, dataEnd), s) == Resolve(l, s) == Retag(Resolve(log, s), 0)
    {
      LiveMeaning(log, sectors, dataEnd, s);
      SameShapeMeaning(live, Normalized(live, dataEnd), s);
      SameShapeMeaning(live, l, s);
    }
  }

  /** Opening: whatever log replay accepts, foreign ones included, the index it
      yields is a good store for that log. */
  lemma {:induction false} OpenGood(log: seq<Mapping>, sectors: nat, dataEnd: nat)
    requires Acceptable(log, sectors, dataEnd) && !Alias(Live(log))
    requires sectors <= MAX_OFFSET && DATA_START <= dataEnd <= MAX_FILE_SECTORS
    ensures Good(Normalized(Live(log), dataEnd), log, sectors, dataEnd)
  {
    var live := Live(log);
    var l := Normalized(live, dataEnd);
    LiveIsOk(log, sectors, dataEnd);
    assert log[..|log|] == log;
    forall s: int, t: int | s != t && Owner(l, s).Some? && Owner(l, t).Some?
      ensures Owner(l, s) != Owner(l, t)
    {
      if Resolve(l, s) == Hole { OwnerHole(l, s); }
      if Resolve(l, t) == Hole { OwnerHole(l, t); }
      var i := ResolveWitness(l, s);
      var j := ResolveWitness(l, t);
      if i < j { SurvivorsDisjoint(live, dataEnd, i, j); }
      if j < i { SurvivorsDisjoint(live, dataEnd, j, i); }
    }
  }

  // ----- one published record ---------------------------------------------------

  /** `u` may be published: inside the volume, and either over payload its
      sectors already own or over fresh payload for sectors that own none. */
  ghost predicate Publishable(l: seq<Mapping>, u: Mapping, sectors: nat, dataEnd: nat) {
    && 0 < u.length <= MAX_LENGTH && u.End() <= sectors && u.tag == 0
    && ((DATA_START <= u.moffset && u.moffset + u.length <= dataEnd &&
         forall s: int :: u.Covers(s) ==> Owner(l, s) == Some(u.moffset + (s - u.offset)))
        || (u.moffset == dataEnd && forall s: int :: u.Covers(s) ==> Owner(l, s) == None))
  }

  function EndAfter(u: Mapping, dataEnd: nat): nat {
    if u.moffset == dataEnd then dataEnd + u.length else dataEnd
  }

  lemma {:induction false} ShapeCutOne(a: Mapping, b: Mapping, lo: nat, hi: nat)
    requires lo <= hi && (a == b || (a.zeroed && b == a.(moffset := b.moffset)))
    ensures SameShape(CutOne(HybridMode, a, lo, hi), CutOne(HybridMode, b, lo, hi))
  {
  }

  lemma {:induction false} ShapeConcat(a: seq<Mapping>, b: seq<Mapping>, c: seq<Mapping>, d: seq<Mapping>)
    requires SameShape(a, b) && SameShape(c, d)
    ensures SameShape(a + c, b + d)
  {
  }

  lemma {:induction false} ShapeCut(a: seq<Mapping>, b: seq<Mapping>, lo: nat, hi: nat)
    requires lo <= hi && SameShape(a, b)
    ensures SameShape(Cut(HybridMode, a, lo, hi), Cut(HybridMode, b, lo, hi))
  {
    if |a| > 0 {
      var n := |a| - 1;
      ShapeCut(a[..n], b[..n], lo, hi);
      ShapeCutOne(a[n], b[n], lo, hi);
      ShapeConcat(Cut(HybridMode, a[..n], lo, hi), Cut(HybridMode, b[..n], lo, hi),
                  CutOne(HybridMode, a[n], lo, hi), CutOne(HybridMode, b[n], lo, hi));
    }
  }

  lemma {:induction false} ShapeRank(a: seq<Mapping>, b: seq<Mapping>, x: nat)
    requires SameShape(a, b)
    ensures Rank(a, x) == Rank(b, x)
  {
    if |a| > 0 { ShapeRank(a[..|a| - 1], b[..|b| - 1], x); }
  }

  lemma {:induction false} ShapeOverlay(a: seq<Mapping>, b: seq<Mapping>, u: Mapping)
    requires SameShape(a, b)
    ensures SameShape(Overlay(HybridMode, a, u), Overlay(HybridMode, b, u))
  {
    var c, d := Cut(HybridMode, a, u.offset, u.End()), Cut(HybridMode, b, u.offset, u.End());
    ShapeCut(a, b, u.offset, u.End());
    ShapeRank(c, d, u.offset);
    var k := Rank(c, u.offset);
    ShapeConcat(c[..k], d[..k], [u], [u]);
    ShapeConcat(c[..k] + [u], d[..k] + [u], c[k..], d[k..]);
  }

  lemma {:induction false} AcceptableMore(log: seq<Mapping>, sectors: nat, dataEnd: nat, sectors': nat, dataEnd': nat)
    requires Acceptable(log, sectors, dataEnd) && sectors <= sectors' && dataEnd <= dataEnd'
    ensures Acceptable(log, sectors', dataEnd')
  {
  }

  lemma {:induction false} AcceptableAppend(log: seq<Mapping>, u: Mapping, sectors: nat, dataEnd: nat)
    requires Acceptable(log, sectors, dataEnd) && |log| < MAX_LOG_RECORDS && u.tag == 0
    requires ValidRecord(u, sectors, dataEnd) && |Overlay(HybridMode, Live(log), u)| <= MAX_INDEX
    ensures Acceptable(log + [u], sectors, dataEnd) && Live(log + [u]) == Overlay(HybridMode, Live(log), u)
  {
    var next := log + [u];
    assert next[..|log|] == log && next[..|next|] == next;
    assert u.(tag := 0) == u;
    forall n | 0 <= n <= |next|
      ensures |Live(next[..n])| <= MAX_INDEX
    {
      if n <= |log| { assert next[..n] == log[..n]; }
    }
  }

  lemma {:induction false} CutEntryOk(m: Mapping, lo: nat, hi: nat, dataEnd: nat)
    requires lo <= hi && 0 < m.length && EntryOk(m, dataEnd) && dataEnd <= MAX_FILE_SECTORS
    ensures forall i :: 0 <= i < |CutOne(HybridMode, m, lo, hi)| ==> EntryOk(CutOne(HybridMode, m, lo, hi)[i], dataEnd)
  {
  }

  lemma {:induction false} CutEntries(l: seq<Mapping>, lo: nat, hi: nat, dataEnd: nat)
    requires lo <= hi && Nonempty(l) && dataEnd <= MAX_FILE_SECTORS
    requires forall i :: 0 <= i < |l| ==> EntryOk(l[i], dataEnd)
    ensures forall i :: 0 <= i < |Cut(HybridMode, l, lo, hi)| ==> EntryOk(Cut(HybridMode, l, lo, hi)[i], dataEnd)
  {
    if |l| > 0 {
      CutEntries(l[..|l| - 1], lo, hi, dataEnd);
      CutEntryOk(l[|l| - 1], lo, hi, dataEnd);
    }
  }

  lemma {:induction false} OverlayMapOk(l: seq<Mapping>, u: Mapping, sectors: nat, dataEnd: nat)
    requires MapOk(l, sectors, dataEnd) && dataEnd <= MAX_FILE_SECTORS
    requires 0 < u.length <= MAX_LENGTH && u.End() <= sectors && EntryOk(u, dataEnd)
    requires |Overlay(HybridMode, l, u)| <= MAX_INDEX
    ensures MapOk(Overlay(HybridMode, l, u), sectors, dataEnd)
  {
    var c := Cut(HybridMode, l, u.offset, u.End());
    CutIndex(HybridMode, l, u.offset, u.End(), 0, sectors);
    CutEntries(l, u.offset, u.End(), dataEnd);
    InsertSorted(c, u);
    InsertWithin(c, u, 0, sectors);
    forall i | 0 <= i < |Insert(c, u)|
      ensures EntryOk(Insert(c, u)[i], dataEnd)
    {
      InsertAt(c, u, i);
    }
  }

  lemma {:induction false} OwnerOverlay(l: seq<Mapping>, u: Mapping, sectors: nat, dataEnd: nat, s: int)
    requires MapOk(l, sectors, dataEnd) && dataEnd <= MAX_FILE_SECTORS
    ensures Owner(Overlay(HybridMode, l, u), s) == if u.Covers(s) then u.OwnerAt(s) else Owner(l, s)
    ensures Resolve(Overlay(HybridMode, l, u), s) == if u.Covers(s) then u.At(s) else Resolve(l, s)
  {
    MapOkBacked(l, sectors, dataEnd);
    CutIndex(HybridMode, l, u.offset, u.End(), 0, sectors);
    ResolveInsert(Cut(HybridMode, l, u.offset, u.End()), u, s);
    OwnerCut(l, u.offset, u.End(), s);
    ResolveCut(HybridMode, l, u.offset, u.End(), s);
  }

  lemma {:induction false} PublishInjective(l: seq<Mapping>, u: Mapping, sectors: nat, dataEnd: nat)
    requires MapOk(l, sectors, dataEnd) && dataEnd <= MAX_FILE_SECTORS && Injective(l)
    requires Publishable(l, u, sectors, dataEnd)
    ensures Injective(Overlay(HybridMode, l, u))
  {
    var r := Overlay(HybridMode, l, u);
    forall s: int, t: int | s != t && Owner(r, s).Some? && Owner(r, t).Some?
      ensures Owner(r, s) != Owner(r, t)
    {
      OwnerOverlay(l, u, sectors, dataEnd, s);
      OwnerOverlay(l, u, sectors, dataEnd, t);
      DataIsOwned(l, sectors, dataEnd, s);
      DataIsOwned(l, sectors, dataEnd, t);
    }
  }

  /** Publishing keeps the store good: the same edit on the mapping and, as one
      appended record, on the log. */
  lemma {:induction false} PublishGood(l: seq<Mapping>, log: seq<Mapping>, u: Mapping, sectors: nat, dataEnd: nat)
    requires Good(l, log, sectors, dataEnd) && Publishable(l, u, sectors, dataEnd)
    requires |log| < MAX_LOG_RECORDS && |Overlay(HybridMode, l, u)| <= MAX_INDEX
    requires EndAfter(u, dataEnd) <= MAX_FILE_SECTORS
    ensures Good(Overlay(HybridMode, l, u), log + [u], sectors, EndAfter(u, dataEnd))
  {
    var end := EndAfter(u, dataEnd);
    assert MapOk(l, sectors, end);
    OverlayMapOk(l, u, sectors, end);
    PublishInjective(l, u, sectors, dataEnd);
    ShapeOverlay(Live(log), l, u);
    AcceptableMore(log, sectors, dataEnd, sectors, end);
    AcceptableAppend(log, u, sectors, end);
  }

  // ----- conservation -------------------------------------------------------------

  function Interval(lo: int, hi: int): (r: set<int>)
    ensures forall s :: s in r <==> lo <= s < hi
    ensures lo <= hi ==> |r| == hi - lo
    decreases hi - lo
  {
    if lo >= hi then {} else Interval(lo, hi - 1) + {hi - 1}
  }

  /** Sectors [lo, hi) become owned, no others change: the count grows by them. */
  lemma {:induction false} OwnedGains(a: seq<Mapping>, b: seq<Mapping>, lo: int, hi: int, sectors: nat)
    requires 0 <= lo <= hi <= sectors
    requires forall s: int :: Owner(b, s).Some? <==> Owner(a, s).Some? || lo <= s < hi
    requires forall s: int :: lo <= s < hi ==> Owner(a, s) == None
    ensures |Owned(b, sectors)| == |Owned(a, sectors)| + (hi - lo)
  {
    var gained := Interval(lo, hi);
    assert Owned(b, sectors) == Owned(a, sectors) + gained;
    assert Owned(a, sectors) !! gained;
  }

  /** Payload grows by exactly the sectors that become owned. */
  lemma {:induction false} PublishConserves(l: seq<Mapping>, u: Mapping, sectors: nat, dataEnd: nat)
    requires MapOk(l, sectors, dataEnd) && dataEnd <= MAX_FILE_SECTORS && Publishable(l, u, sectors, dataEnd)
    ensures EndAfter(u, dataEnd) - |Owned(Overlay(HybridMode, l, u), sectors)| == dataEnd - |Owned(l, sectors)|
  {
    var r := Overlay(HybridMode, l, u);
    forall s: int
      ensures Owner(r, s) == if u.Covers(s) then u.OwnerAt(s) else Owner(l, s)
    {
      OwnerOverlay(l, u, sectors, dataEnd, s);
    }
    if u.moffset == dataEnd {
      OwnedGains(l, r, u.offset, u.End(), sectors);
    } else {
      assert Owned(r, sectors) == Owned(l, sectors);
    }
  }

  /** An edit inside one mapping, or inside a gap, never shrinks the index. */
  lemma {:induction false} OverlayGrows(l: seq<Mapping>, u: Mapping, k: nat)
    requires Index(l) && k <= |l| && u.length > 0
    requires forall i :: 0 <= i < k ==> l[i].End() <= u.offset
    requires k < |l| ==> u.End() <= l[k].offset || (l[k].offset <= u.offset && u.End() <= l[k].End())
    ensures |Overlay(HybridMode, l, u)| >= |l|
  {
    var lo, hi := u.offset, u.End();
    if k < |l| && l[k].offset <= u.offset {
      PrefixClear(l, k, lo, hi);
      SuffixClear(l, k + 1, lo, hi);
      CutMiddle(HybridMode, l, k, k + 1, lo, hi);
    } else {
      PrefixClear(l, k, lo, hi);
      SuffixClear(l, k, lo, hi);
      CutMiddle(HybridMode, l, k, k, lo, hi);
    }
    InsertAt(Cut(HybridMode, l, lo, hi), u, 0);
  }

  // ----- compaction: giving ZERO its own payload ------------------------------------

  /** Every owner of `a` is the same owner in `b`. */
  ghost predicate OwnersKept(a: seq<Mapping>, b: seq<Mapping>) {
    forall s: int :: Owner(a, s).Some? ==> Owner(b, s) == Owner(a, s)
  }

  ghost predicate AllBacked(l: seq<Mapping>) {
    forall i :: 0 <= i < |l| ==> l[i].moffset != NO_PHYSICAL
  }

  /** An unbacked ZERO mapping gets the payload at the end of the file. */
  function Back(l: seq<Mapping>, k: nat, end: nat): seq<Mapping>
    requires k < |l|
  {
    l[k := l[k].(moffset := end)]
  }

  lemma {:induction false} BackOwners(l: seq<Mapping>, k: nat, end: nat, s: int)
    requires Index(l) && k < |l| && l[k].moffset == NO_PHYSICAL && l[k].zeroed && end < NO_PHYSICAL
    ensures Owner(Back(l, k, end), s) == if l[k].Covers(s) then Some(end + (s - l[k].offset)) else Owner(l, s)
    ensures Resolve(Back(l, k, end), s) == Resolve(l, s)
    ensures l[k].Covers(s) ==> Owner(l, s) == None
  {
    var r := Back(l, k, end);
    SameShapeMeaning(l, r, s);
    if Resolve(l, s) == Hole {
      OwnerHole(l, s);
      OwnerHole(r, s);
      if l[k].Covers(s) { ResolveAt(l, k, s); }
    } else {
      var j := ResolveWitness(l, s);
      ResolveAt(r, j, s);
      if l[k].Covers(s) { ResolveAt(l, k, s); ResolveAt(r, k, s); }
      if j == k { } else { assert r[j] == l[j]; }
    }
  }

  lemma {:induction false} BackKeeps(l: seq<Mapping>, k: nat, sectors: nat, end: nat)
    requires MapOk(l, sectors, end) && Injective(l) && k < |l| && l[k].moffset == NO_PHYSICAL
    requires DATA_START <= end && end + l[k].length <= MAX_FILE_SECTORS
    ensures MapOk(Back(l, k, end), sectors, end + l[k].length) && Injective(Back(l, k, end))
    ensures SameShape(l, Back(l, k, end)) && OwnersKept(l, Back(l, k, end))
    ensures end + l[k].length - |Owned(Back(l, k, end), sectors)| == end - |Owned(l, sectors)|
  {
    var r := Back(l, k, end);
    forall s: int
      ensures Owner(r, s) == if l[k].Covers(s) then Some(end + (s - l[k].offset)) else Owner(l, s)
      ensures l[k].Covers(s) ==> Owner(l, s) == None
      ensures Owner(l, s).Some? ==> Owner(l, s).value < end
    {
      BackOwners(l, k, end, s);
      DataIsOwned(l, sectors, end, s);
    }
    OwnedGains(l, r, l[k].offset, l[k].End(), sectors);
  }

  // ----- compaction: joining neighbours -----------------------------------------------

  predicate Joins(p: Mapping, m: Mapping) {
    && p.End() == m.offset && p.zeroed == m.zeroed && p.moffset + p.length == m.moffset
    && m.length <= MAX_LENGTH - p.length
  }

  function Join(out: seq<Mapping>, m: Mapping): seq<Mapping> {
    if |out| > 0 && out[|out| - 1].length <= MAX_LENGTH && Joins(out[|out| - 1], m)
    then out[..|out| - 1] + [out[|out| - 1].(length := out[|out| - 1].length + m.length)]
    else out + [m]
  }

  /** `out` is the first i mappings of `l`, joined. */
  ghost predicate JoinedTo(out: seq<Mapping>, l: seq<Mapping>, i: nat, dataEnd: nat)
    requires i <= |l|
  {
    && Index(out) && Within(out, 0, if i < |l| then l[i].offset else MAX_OFFSET) && |out| <= i
    && AllBacked(out) && (forall k :: 0 <= k < |out| ==> EntryOk(out[k], dataEnd))
    && (forall s: int :: Resolve(out, s) == Resolve(l[..i], s) && Owner(out, s) == Owner(l[..i], s))
  }

  lemma {:induction false} JoinMeaning(out: seq<Mapping>, m: Mapping, s: int)
    requires m.moffset != NO_PHYSICAL && m.tag == 0
    requires |out| > 0 ==> out[|out| - 1].moffset != NO_PHYSICAL && out[|out| - 1].tag == 0
    ensures Resolve(Join(out, m), s) == if m.Covers(s) then m.At(s) else Resolve(out, s)
    ensures Owner(Join(out, m), s) == if m.Covers(s) then m.OwnerAt(s) else Owner(out, s)
  {
    if |out| > 0 && out[|out| - 1].length <= MAX_LENGTH && Joins(out[|out| - 1], m) {
      var rest, p := out[..|out| - 1], out[|out| - 1];
      assert out == rest + [p];
      ResolveLast(rest, p, s);
      ResolveLast(rest, p.(length := p.length + m.length), s);
    } else {
      ResolveLast(out, m, s);
    }
  }

  lemma {:induction false} JoinStep(out: seq<Mapping>, l: seq<Mapping>, i: nat, sectors: nat, dataEnd: nat)
    requires MapOk(l, sectors, dataEnd) && AllBacked(l) && i < |l| && JoinedTo(out, l, i, dataEnd)
    requires sectors <= MAX_OFFSET
    ensures JoinedTo(Join(out, l[i]), l, i + 1, dataEnd)
  {
    var m := l[i];
    JoinIndex(out, m);
    assert i + 1 < |l| ==> m.End() <= l[i + 1].offset;
    forall s: int
      ensures Resolve(Join(out, m), s) == Resolve(l[..i + 1], s) && Owner(Join(out, m), s) == Owner(l[..i + 1], s)
    {
      JoinMeaning(out, m, s);
      assert l[..i + 1][..i] == l[..i];
    }
  }

  lemma {:induction false} JoinIndex(out: seq<Mapping>, m: Mapping)
    requires Index(out) && Within(out, 0, m.offset) && 0 < m.length <= MAX_LENGTH
    ensures Index(Join(out, m)) && Within(Join(out, m), 0, m.End())
  {
    if |out| > 0 && Joins(out[|out| - 1], m) {
      var p := out[|out| - 1];
      ConcatIndex(out[..|out| - 1], [p.(length := p.length + m.length)], 0, p.offset, m.End());
    } else {
      ConcatIndex(out, [m], 0, m.offset, m.End());
    }
  }

  // ----- a compact index is its own log -------------------------------------------------

  /** Replaying an index written out in order gives that index back. */
  lemma {:induction false} LiveOfIndex(l: seq<Mapping>)
    requires Index(l) && forall i :: 0 <= i < |l| ==> l[i].tag == 0
    ensures Live(l) == l
  {
    if |l| > 0 {
      var rest, m := l[..|l| - 1], l[|l| - 1];
      LiveOfIndex(rest);
      assert m.(tag := 0) == m;
      OverlayAtEnd(HybridMode, rest, m);
      assert rest + [m] == l;
    }
  }

  /** A compacted index is a good store with itself as the log. */
  lemma {:induction false} CompactGood(c: seq<Mapping>, sectors: nat, dataEnd: nat)
    requires MapOk(c, sectors, dataEnd) && Injective(c) && AllBacked(c)
    requires sectors <= MAX_OFFSET && DATA_START <= dataEnd <= MAX_FILE_SECTORS
    ensures Good(c, c, sectors, dataEnd)
  {
    forall n | 0 <= n <= |c|
      ensures Live(c[..n]) == c[..n]
    {
      LiveOfIndex(c[..n]);
    }
    assert c[..|c|] == c;
  }

  /** The checks before a rename pass: replay accepts the compacted index and
      leaves every ZERO its backing. */
  lemma {:induction false} CompactVerifies(c: seq<Mapping>, sectors: nat, dataEnd: nat)
    requires MapOk(c, sectors, dataEnd) && Injective(c) && AllBacked(c)
    requires sectors <= MAX_OFFSET && DATA_START <= dataEnd <= MAX_FILE_SECTORS
    ensures Acceptable(c, sectors, dataEnd) && !Alias(Live(c)) && Normalized(Live(c), dataEnd) == c
  {
    CompactGood(c, sectors, dataEnd);
    LogReplays(c, c, sectors, dataEnd);
    LiveOfIndex(c);
    forall i | 0 <= i < |c|
      ensures Exclusive(c, i, dataEnd)
    {
      forall j | 0 <= j < |c| && j != i
        ensures !Overlap(c[i], c[j])
      {
        InjectiveDisjoint(c, i, j);
      }
    }
  }

  // ----- payload writes --------------------------------------------------------------------

  /** The file after writing `blocks` at sector p, growing it if need be. */
  function PutBlocks(data: seq<Block>, p: nat, blocks: seq<Block>): (r: seq<Block>)
    requires p <= |data|
    ensures |r| == if p + |blocks| > |data| then p + |blocks| else |data|
    ensures forall i :: 0 <= i < |r| ==> r[i] == if p <= i < p + |blocks| then blocks[i - p] else data[i]
  {
    data[..p] + blocks + (if p + |blocks| < |data| then data[p + |blocks|..] else [])
  }

  /** Sectors owning no payload in [p, p + n) read the same after it is written. */
  lemma {:induction false} WriteElsewhere(l: seq<Mapping>, sectors: nat, dataEnd: nat, data: seq<Block>,
                                          after: seq<Block>, p: nat, n: nat, s: int)
    requires MapOk(l, sectors, dataEnd) && dataEnd <= MAX_FILE_SECTORS && dataEnd <= |data| && dataEnd <= |after|
    requires forall i :: 0 <= i < dataEnd && !(p <= i < p + n) ==> after[i] == data[i]
    requires Owner(l, s).Some? ==> !(p <= Owner(l, s).value < p + n)
    ensures ReadAt(l, after, s) == ReadAt(l, data, s)
  {
    DataIsOwned(l, sectors, dataEnd, s);
  }
}
