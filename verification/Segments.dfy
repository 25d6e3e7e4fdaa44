/** Segment mappings and what a list of them means.

    A list is read like a log: the last mapping covering a sector decides it.
    On a list whose mappings are pairwise disjoint the order does not matter,
    so one meaning serves both mapping logs and sorted in-memory indexes.
 */
module Segments {

  const MAX_LENGTH: nat := 16383
  const MAX_OFFSET: nat := 0x3_FFFF_FFFF_FFFF
  const MAX_MOFFSET: nat := 0x7F_FFFF_FFFF_FFFF
  /** The all-ones physical offset: a ZERO mapping that owns no payload. */
  const NO_PHYSICAL: nat := MAX_MOFFSET
  const DATA_START: nat := 8
  const MAX_INDEX: nat := 1_000_000
  const MAX_LOG_RECORDS: nat := 4 * MAX_INDEX
  /** Largest file size, a signed 64-bit byte count, and the same in whole sectors. */
  const MAX_FILE: nat := 0x7FFF_FFFF_FFFF_FFFF
  const MAX_FILE_SECTORS: nat := MAX_FILE / 512

  datatype Option<+T> = None | Some(value: T)

  /** What one logical sector resolves to. */
  datatype Sector = Hole | Zero(tag: nat) | Data(tag: nat, phys: nat)

  function Retag(x: Sector, tag: nat): Sector {
    match x
    case Hole => Hole
    case Zero(_) => Zero(tag)
    case Data(_, p) => Data(tag, p)
  }

  datatype Mapping = Mapping(offset: nat, length: nat, moffset: nat, zeroed: bool, tag: nat) {
    function End(): nat { offset + length }

    function Mend(): nat { if zeroed then moffset else moffset + length }

    predicate Covers(s: int) { offset <= s < offset + length }

    function At(s: int): Sector
      requires Covers(s)
    {
      if zeroed then Zero(tag) else Data(tag, moffset + (s - offset))
    }

    /** The payload sector owned by logical sector s, DATA or ZERO alike. */
    function OwnerAt(s: int): Option<nat>
      requires Covers(s)
    {
      if moffset == NO_PHYSICAL then None else Some(moffset + (s - offset))
    }

    /** First `n` sectors. */
    function Head(n: nat): Mapping { this.(length := n) }
  }

  /** Records with the invalid offset are padding whatever else they hold. */
  predicate Skipped(m: Mapping) { m.offset == MAX_OFFSET }

  /** How the part of a mapping after a cut keeps its physical offset:
      a Hybrid upper shifts every owned offset, an LSMT upper only DATA. */
  datatype Mode = HybridMode | LsmtMode

  predicate Shifts(mode: Mode, m: Mapping) {
    match mode
    case HybridMode => m.moffset != NO_PHYSICAL
    case LsmtMode => !m.zeroed
  }

  /** The part of `m` from logical sector `start` on. */
  function Suffix(mode: Mode, m: Mapping, start: nat): Mapping
    requires m.offset <= start <= m.End()
  {
    var delta := start - m.offset;
    Mapping(start, m.length - delta, if Shifts(mode, m) then m.moffset + delta else m.moffset, m.zeroed, m.tag)
  }

  function Resolve(l: seq<Mapping>, s: int): Sector {
    if |l| == 0 then Hole
    else if l[|l| - 1].Covers(s) then l[|l| - 1].At(s)
    else Resolve(l[..|l| - 1], s)
  }

  function Owner(l: seq<Mapping>, s: int): Option<nat> {
    if |l| == 0 then None
    else if l[|l| - 1].Covers(s) then l[|l| - 1].OwnerAt(s)
    else Owner(l[..|l| - 1], s)
  }

  ghost predicate Sorted(l: seq<Mapping>) {
    forall i, j :: 0 <= i < j < |l| ==> l[i].End() <= l[j].offset
  }

  ghost predicate Nonempty(l: seq<Mapping>) {
    forall i :: 0 <= i < |l| ==> 0 < l[i].length <= MAX_LENGTH
  }

  /** A well-formed index: sorted, disjoint, nonempty, length-bounded. */
  ghost predicate Index(l: seq<Mapping>) {
    Sorted(l) && Nonempty(l)
  }

  ghost predicate Within(l: seq<Mapping>, lo: int, hi: int) {
    forall i :: 0 <= i < |l| ==> lo <= l[i].offset && l[i].End() <= hi
  }

  /** No mapping meets [lo, hi). */
  ghost predicate Clear(l: seq<Mapping>, lo: int, hi: int) {
    forall i :: 0 <= i < |l| ==> l[i].End() <= lo || l[i].offset >= hi
  }

  /** Two lists mean the same on every sector. */
  ghost predicate SameMeaning(a: seq<Mapping>, b: seq<Mapping>) {
    forall s: int :: Resolve(a, s) == Resolve(b, s)
  }

  lemma {:induction false} ResolveConcat(a: seq<Mapping>, b: seq<Mapping>, s: int)
    ensures Resolve(a + b, s) == if Resolve(b, s) == Hole then Resolve(a, s) else Resolve(b, s)
  {
    if |b| == 0 {
      assert a + b == a;
    } else {
      assert (a + b)[..|a + b| - 1] == a + b[..|b| - 1];
      ResolveConcat(a, b[..|b| - 1], s);
    }
  }

  lemma {:induction false} OwnerHole(l: seq<Mapping>, s: int)
    requires Resolve(l, s) == Hole
    ensures Owner(l, s) == None
  {
    if |l| > 0 { OwnerHole(l[..|l| - 1], s); }
  }

  lemma {:induction false} OwnerConcat(a: seq<Mapping>, b: seq<Mapping>, s: int)
    ensures Owner(a + b, s) == if Resolve(b, s) == Hole then Owner(a, s) else Owner(b, s)
  {
    if |b| == 0 {
      assert a + b == a;
    } else {
      assert (a + b)[..|a + b| - 1] == a + b[..|b| - 1];
      OwnerConcat(a, b[..|b| - 1], s);
    }
  }

  lemma {:induction false} ResolveLast(l: seq<Mapping>, m: Mapping, s: int)
    ensures Resolve(l + [m], s) == if m.Covers(s) then m.At(s) else Resolve(l, s)
    ensures Owner(l + [m], s) == if m.Covers(s) then m.OwnerAt(s) else Owner(l, s)
  {
    assert (l + [m])[..|l|] == l;
  }

  /** A sector no mapping covers is a hole. */
  lemma {:induction false} ResolveNone(l: seq<Mapping>, s: int)
    requires forall i :: 0 <= i < |l| ==> !l[i].Covers(s)
    ensures Resolve(l, s) == Hole
  {
    if |l| > 0 { ResolveNone(l[..|l| - 1], s); }
  }

  /** On a sorted list any covering mapping is the deciding one. */
  lemma {:induction false} ResolveAt(l: seq<Mapping>, k: nat, s: int)
    requires Sorted(l) && k < |l| && l[k].Covers(s)
    ensures Resolve(l, s) == l[k].At(s)
    ensures Owner(l, s) == l[k].OwnerAt(s)
  {
    if k < |l| - 1 { ResolveAt(l[..|l| - 1], k, s); }
  }

  /** A sector that is not a hole has a covering mapping. */
  lemma {:induction false} ResolveWitness(l: seq<Mapping>, s: int) returns (k: nat)
    requires Resolve(l, s) != Hole
    ensures k < |l| && l[k].Covers(s) && Resolve(l, s) == l[k].At(s) && Owner(l, s) == l[k].OwnerAt(s)
  {
    if l[|l| - 1].Covers(s) { k := |l| - 1; } else { k := ResolveWitness(l[..|l| - 1], s); }
  }

  /** A prefix of an index means the index up to where the next mapping starts. */
  lemma {:induction false} ResolveTake(l: seq<Mapping>, k: nat, s: int)
    requires Index(l) && k <= |l|
    ensures Resolve(l[..k], s) == if k < |l| && s >= l[k].offset then Hole else Resolve(l, s)
  {
    assert l == l[..k] + l[k..];
    ResolveConcat(l[..k], l[k..], s);
    if k == |l| || s < l[k].offset { ResolveNone(l[k..], s); } else { ResolveNone(l[..k], s); }
  }

  /** A suffix of an index means the index from where the previous mapping ends. */
  lemma {:induction false} ResolveDrop(l: seq<Mapping>, k: nat, s: int)
    requires Index(l) && k <= |l|
    ensures Resolve(l[k..], s) == if k > 0 && s < l[k - 1].End() then Hole else Resolve(l, s)
  {
    assert l == l[..k] + l[k..];
    ResolveConcat(l[..k], l[k..], s);
    if k == 0 || s >= l[k - 1].End() {
      forall i | 0 <= i < k
        ensures !l[..k][i].Covers(s)
      {
        assert i < k - 1 ==> l[i].End() <= l[k - 1].offset;
      }
      ResolveNone(l[..k], s);
    } else {
      ResolveNone(l[k..], s);
    }
  }

  /** The gap before segment k, from a point all earlier segments end before. */
  lemma {:induction false} GapIsHole(segs: seq<Mapping>, k: nat, s: int)
    requires Sorted(segs) && k <= |segs|
    requires forall i :: 0 <= i < k ==> segs[i].End() <= s
    requires k < |segs| ==> s < segs[k].offset
    ensures Resolve(segs, s) == Hole
  {
    forall i | 0 <= i < |segs|
      ensures !segs[i].Covers(s)
    {
      if i > k { assert segs[k].End() <= segs[i].offset; }
    }
    ResolveNone(segs, s);
  }

  lemma {:induction false} ResolveOutside(l: seq<Mapping>, lo: int, hi: int, s: int)
    requires Within(l, lo, hi) && !(lo <= s < hi)
    ensures Resolve(l, s) == Hole
  {
    ResolveNone(l, s);
  }

  // ----- partition point ---------------------------------------------------

  /** Index of the first mapping ending after sector s: the partition point a
      binary search over strictly increasing ends finds. */
  function UpperBound(l: seq<Mapping>, s: int): (k: nat)
    ensures k <= |l|
    ensures forall i :: 0 <= i < k ==> l[i].End() <= s
    ensures k < |l| ==> s < l[k].End()
  {
    if |l| == 0 then 0
    else
      var k := UpperBound(l[..|l| - 1], s);
      if k < |l| - 1 then k
      else if s < l[|l| - 1].End() then k else |l|
  }

  // ----- cutting a range out of a list ------------------------------------

  function CutOne(mode: Mode, m: Mapping, lo: nat, hi: nat): seq<Mapping>
    requires lo <= hi
  {
    if m.End() <= lo || m.offset >= hi then [m]
    else if m.offset < lo && m.End() > hi then [m.Head(lo - m.offset), Suffix(mode, m, hi)]
    else if m.offset < lo then [m.Head(lo - m.offset)]
    else if m.End() > hi then [Suffix(mode, m, hi)]
    else []
  }

  /** Drops the coverage of [lo, hi) from every mapping. */
  function Cut(mode: Mode, l: seq<Mapping>, lo: nat, hi: nat): seq<Mapping>
    requires lo <= hi
  {
    if |l| == 0 then []
    else Cut(mode, l[..|l| - 1], lo, hi) + CutOne(mode, l[|l| - 1], lo, hi)
  }

  /** DATA mappings carry a real physical offset. */
  ghost predicate Backed(l: seq<Mapping>) {
    forall i :: 0 <= i < |l| ==> !l[i].zeroed ==> l[i].moffset != NO_PHYSICAL
  }

  lemma {:induction false} ResolveCutOne(mode: Mode, m: Mapping, lo: nat, hi: nat, s: int)
    requires lo <= hi
    requires mode == HybridMode ==> !m.zeroed ==> m.moffset != NO_PHYSICAL
    ensures Resolve(CutOne(mode, m, lo, hi), s) ==
            if m.Covers(s) && !(lo <= s < hi) then m.At(s) else Hole
  {
    var c := CutOne(mode, m, lo, hi);
    if |c| == 2 {
      assert c[..1][..0] == [];
      assert Resolve(c[..1], s) == if c[0].Covers(s) then c[0].At(s) else Hole;
    } else if |c| == 1 {
      assert c[..0] == [];
    }
  }

  lemma {:induction false} ResolveCut(mode: Mode, l: seq<Mapping>, lo: nat, hi: nat, s: int)
    requires lo <= hi
    requires mode == HybridMode ==> Backed(l)
    ensures Resolve(Cut(mode, l, lo, hi), s) == if lo <= s < hi then Hole else Resolve(l, s)
  {
    if |l| > 0 {
      var m := l[|l| - 1];
      ResolveCut(mode, l[..|l| - 1], lo, hi, s);
      ResolveCutOne(mode, m, lo, hi, s);
      ResolveConcat(Cut(mode, l[..|l| - 1], lo, hi), CutOne(mode, m, lo, hi), s);
    }
  }

  /** No owned extent runs into the sentinel offset. */
  ghost predicate OwnersBelowSentinel(l: seq<Mapping>) {
    forall i :: 0 <= i < |l| ==> l[i].moffset == NO_PHYSICAL || l[i].moffset + l[i].length <= NO_PHYSICAL
  }

  lemma {:induction false} OwnerCutOne(m: Mapping, lo: nat, hi: nat, s: int)
    requires lo <= hi
    requires m.moffset == NO_PHYSICAL || m.moffset + m.length <= NO_PHYSICAL
    ensures Owner(CutOne(HybridMode, m, lo, hi), s) ==
            if m.Covers(s) && !(lo <= s < hi) then m.OwnerAt(s) else None
  {
    var c := CutOne(HybridMode, m, lo, hi);
    if |c| == 2 {
      assert c[..1][..0] == [];
      assert Owner(c[..1], s) == if c[0].Covers(s) then c[0].OwnerAt(s) else None;
    } else if |c| == 1 {
      assert c[..0] == [];
    }
  }

  lemma {:induction false} OwnerCut(l: seq<Mapping>, lo: nat, hi: nat, s: int)
    requires lo <= hi && Backed(l) && OwnersBelowSentinel(l)
    ensures Owner(Cut(HybridMode, l, lo, hi), s) == if lo <= s < hi then None else Owner(l, s)
  {
    if |l| > 0 {
      var m := l[|l| - 1];
      OwnerCut(l[..|l| - 1], lo, hi, s);
      OwnerCutOne(m, lo, hi, s);
      ResolveCutOne(HybridMode, m, lo, hi, s);
      OwnerConcat(Cut(HybridMode, l[..|l| - 1], lo, hi), CutOne(HybridMode, m, lo, hi), s);
    }
  }

  lemma {:induction false} ConcatIndex(a: seq<Mapping>, b: seq<Mapping>, x: int, y: int, z: int)
    requires Index(a) && Index(b) && Within(a, x, y) && Within(b, y, z) && x <= y <= z
    ensures Index(a + b) && Within(a + b, x, z)
  {
    var r := a + b;
    forall i, j | 0 <= i < j < |r|
      ensures r[i].End() <= r[j].offset
    {
      if i < |a| <= j { assert r[i] == a[i] && r[j] == b[j - |a|]; }
    }
  }

  lemma {:induction false} CutOneIndex(mode: Mode, m: Mapping, lo: nat, hi: nat)
    requires lo <= hi && 0 < m.length <= MAX_LENGTH
    ensures Index(CutOne(mode, m, lo, hi)) && Within(CutOne(mode, m, lo, hi), m.offset, m.End())
    ensures Clear(CutOne(mode, m, lo, hi), lo, hi)
  {
  }

  /** Cutting keeps an index well-formed, inside its span and clear of [lo, hi). */
  lemma {:induction false} CutIndex(mode: Mode, l: seq<Mapping>, lo: nat, hi: nat, a: int, b: int)
    requires lo <= hi && Index(l) && Within(l, a, b) && a <= b
    ensures Index(Cut(mode, l, lo, hi)) && Within(Cut(mode, l, lo, hi), a, b)
    ensures Clear(Cut(mode, l, lo, hi), lo, hi)
  {
    if |l| > 0 {
      var m := l[|l| - 1];
      CutIndex(mode, l[..|l| - 1], lo, hi, a, m.offset);
      CutOneIndex(mode, m, lo, hi);
      ConcatIndex(Cut(mode, l[..|l| - 1], lo, hi), CutOne(mode, m, lo, hi), a, m.offset, m.End());
    }
  }

  lemma {:induction false} ConcatAssoc(a: seq<Mapping>, b: seq<Mapping>, c: seq<Mapping>)
    ensures (a + b) + c == a + (b + c)
  {
  }

  lemma {:induction false} CutConcat(mode: Mode, a: seq<Mapping>, b: seq<Mapping>, lo: nat, hi: nat)
    requires lo <= hi
    ensures Cut(mode, a + b, lo, hi) == Cut(mode, a, lo, hi) + Cut(mode, b, lo, hi)
  {
    if |b| == 0 {
      assert a + b == a;
    } else {
      var b', m := b[..|b| - 1], b[|b| - 1];
      assert (a + b)[..|a + b| - 1] == a + b';
      CutConcat(mode, a, b', lo, hi);
      ConcatAssoc(Cut(mode, a, lo, hi), Cut(mode, b', lo, hi), CutOne(mode, m, lo, hi));
    }
  }

  lemma {:induction false} CutClear(mode: Mode, l: seq<Mapping>, lo: nat, hi: nat)
    requires lo <= hi && Clear(l, lo, hi)
    ensures Cut(mode, l, lo, hi) == l
  {
    if |l| > 0 { CutClear(mode, l[..|l| - 1], lo, hi); }
  }

  /** Only the mappings meeting [lo, hi) are touched by a cut. */
  lemma {:induction false} CutMiddle(mode: Mode, l: seq<Mapping>, first: nat, k: nat, lo: nat, hi: nat)
    requires lo <= hi && first <= k <= |l| && Clear(l[..first], lo, hi) && Clear(l[k..], lo, hi)
    ensures Cut(mode, l, lo, hi) == l[..first] + Cut(mode, l[first..k], lo, hi) + l[k..]
  {
    assert l == l[..first] + l[first..k] + l[k..];
    CutConcat(mode, l[..first] + l[first..k], l[k..], lo, hi);
    CutConcat(mode, l[..first], l[first..k], lo, hi);
    CutClear(mode, l[..first], lo, hi);
    CutClear(mode, l[k..], lo, hi);
  }

  /** The remainders of mappings i to k. */
  function CutRange(mode: Mode, l: seq<Mapping>, i: nat, k: nat, lo: nat, hi: nat): seq<Mapping>
    requires lo <= hi && i <= k <= |l|
  {
    if i == k then [] else CutRange(mode, l, i, k - 1, lo, hi) + CutOne(mode, l[k - 1], lo, hi)
  }

  lemma {:induction false} CutRangeIsCut(mode: Mode, l: seq<Mapping>, i: nat, k: nat, p: seq<Mapping>, lo: nat, hi: nat)
    requires lo <= hi && i <= k <= |l| && p == l[i..k]
    ensures CutRange(mode, l, i, k, lo, hi) == Cut(mode, p, lo, hi)
  {
    if i < k {
      assert p[|p| - 1] == l[k - 1];
      CutRangeIsCut(mode, l, i, k - 1, p[..|p| - 1], lo, hi);
    }
  }

  lemma {:induction false} PrefixClear(l: seq<Mapping>, first: nat, lo: int, hi: int)
    requires Index(l) && first <= |l| && (first > 0 ==> l[first - 1].End() <= lo)
    ensures Clear(l[..first], lo, hi)
  {
    forall i | 0 <= i < first
      ensures l[i].End() <= lo
    {
      assert i < first - 1 ==> l[i].End() <= l[first - 1].offset;
    }
  }

  lemma {:induction false} SuffixClear(l: seq<Mapping>, k: nat, lo: int, hi: int)
    requires Index(l) && k <= |l| && (k < |l| ==> l[k].offset >= hi)
    ensures Clear(l[k..], lo, hi)
  {
    forall i | k <= i < |l|
      ensures l[i].offset >= hi
    {
      assert k < i ==> l[k].End() <= l[i].offset;
    }
  }

  /** A cut touches only the mappings from the first reaching past `lo` to the
      last starting before `hi`. */
  lemma {:induction false} CutAsRange(mode: Mode, l: seq<Mapping>, first: nat, k: nat, lo: nat, hi: nat)
    requires Index(l) && lo <= hi && first <= k <= |l|
    requires first > 0 ==> l[first - 1].End() <= lo
    requires k < |l| ==> l[k].offset >= hi
    ensures Cut(mode, l, lo, hi) == l[..first] + CutRange(mode, l, first, k, lo, hi) + l[k..]
  {
    PrefixClear(l, first, lo, hi);
    SuffixClear(l, k, lo, hi);
    CutMiddle(mode, l, first, k, lo, hi);
    CutRangeIsCut(mode, l, first, k, l[first..k], lo, hi);
  }

  /** Ordered-map search: the first key at or after `lo`, one step back if the
      previous mapping reaches past `lo`. */
  function FirstReaching(l: seq<Mapping>, lo: nat): (k: nat)
    requires Index(l)
    ensures k == UpperBound(l, lo)
  {
    var k := Rank(l, lo);
    var r := if k > 0 && l[k - 1].End() > lo then k - 1 else k;
    assert forall i :: 0 <= i < r ==> l[i].End() <= lo by {
      assert r < k ==> forall i :: 0 <= i < r ==> l[i].End() <= l[r].offset;
      assert r == k && k > 0 ==> forall i :: 0 <= i < r ==> i < k - 1 ==> l[i].End() <= l[k - 1].offset;
    }
    r
  }

  /** The erase loop: remainders of the mappings from `first` up to the first
      one starting at or after `hi`. */
  method CutRun(mode: Mode, live: seq<Mapping>, first: nat, lo: nat, hi: nat) returns (retained: seq<Mapping>, k: nat)
    requires first <= |live| && lo <= hi
    ensures first <= k <= |live| && (k < |live| ==> live[k].offset >= hi)
    ensures retained == CutRange(mode, live, first, k, lo, hi)
  {
    k, retained := first, [];
    while k < |live| && live[k].offset < hi
      invariant first <= k <= |live|
      invariant retained == CutRange(mode, live, first, k, lo, hi)
    {
      retained := retained + CutOne(mode, live[k], lo, hi);
      k := k + 1;
    }
  }

  /** The cut over an ordered map: only the mappings from the first one reaching
      past `lo` to the last one starting before `hi` are erased and their
      remainders put back. */
  method CutMapped(mode: Mode, live: seq<Mapping>, lo: nat, hi: nat) returns (r: seq<Mapping>)
    requires Index(live) && lo <= hi
    ensures r == Cut(mode, live, lo, hi)
  {
    var first := FirstReaching(live, lo);
    var retained, k := CutRun(mode, live, first, lo, hi);
    CutAsRange(mode, live, first, k, lo, hi);
    r := live[..first] + retained + live[k..];
  }

  // ----- inserting one mapping ---------------------------------------------

  /** The same cut by a scan of the whole list. */
  method CutAll(mode: Mode, live: seq<Mapping>, lo: nat, hi: nat) returns (r: seq<Mapping>)
    requires lo <= hi
    ensures r == Cut(mode, live, lo, hi)
  {
    r := [];
    var i: nat := 0;
    while i < |live|
      invariant i <= |live| && r == CutRange(mode, live, 0, i, lo, hi)
    {
      r := r + CutOne(mode, live[i], lo, hi);
      i := i + 1;
    }
    CutRangeIsCut(mode, live, 0, i, live, lo, hi);
  }

  /** Number of mappings starting before `x`. */
  function Rank(l: seq<Mapping>, x: nat): (k: nat)
    ensures k <= |l|
    ensures forall i :: 0 <= i < k ==> l[i].offset < x
    ensures k < |l| ==> l[k].offset >= x
  {
    if |l| == 0 then 0
    else
      var k := Rank(l[..|l| - 1], x);
      if k < |l| - 1 then k
      else if l[|l| - 1].offset < x then |l| else k
  }

  /** `l` with `m` put at its place in offset order. */
  function Insert(l: seq<Mapping>, m: Mapping): (r: seq<Mapping>) {
    var k := Rank(l, m.offset);
    l[..k] + [m] + l[k..]
  }

  /** Position by position, the insertion is the old list with `m` let in. */
  lemma {:induction false} InsertAt(l: seq<Mapping>, m: Mapping, i: nat)
    requires i <= |l|
    ensures |Insert(l, m)| == |l| + 1
    ensures var k := Rank(l, m.offset); Insert(l, m)[i] == if i < k then l[i] else if i == k then m else l[i - 1]
  {
  }

  lemma {:induction false} InsertWithin(l: seq<Mapping>, m: Mapping, a: int, b: int)
    requires Within(l, a, b) && a <= m.offset && m.End() <= b
    ensures Within(Insert(l, m), a, b)
  {
    forall i | 0 <= i < |Insert(l, m)|
      ensures a <= Insert(l, m)[i].offset && Insert(l, m)[i].End() <= b
    {
      InsertAt(l, m, i);
    }
  }

  lemma {:induction false} InsertSorted(l: seq<Mapping>, m: Mapping)
    requires Index(l) && Clear(l, m.offset, m.End()) && 0 < m.length <= MAX_LENGTH
    ensures Index(Insert(l, m))
  {
    var k := Rank(l, m.offset);
    var r := Insert(l, m);
    forall i, j | 0 <= i < j < |r|
      ensures r[i].End() <= r[j].offset
    {
      if i < k && j == k { assert r[i] == l[i] && l[i].offset < m.offset; }
      if i == k { assert r[j] == l[j - 1]; assert l[j - 1].offset >= l[k].offset; }
    }
  }

  lemma {:induction false} ResolveInsert(l: seq<Mapping>, m: Mapping, s: int)
    requires Clear(l, m.offset, m.End())
    ensures Resolve(Insert(l, m), s) == if m.Covers(s) then m.At(s) else Resolve(l, s)
    ensures Owner(Insert(l, m), s) == if m.Covers(s) then m.OwnerAt(s) else Owner(l, s)
  {
    var k := Rank(l, m.offset);
    assert l == l[..k] + l[k..];
    ResolveConcat(l[..k], l[k..], s);
    OwnerConcat(l[..k], l[k..], s);
    ResolveConcat(l[..k], [m], s);
    OwnerConcat(l[..k], [m], s);
    ResolveConcat(l[..k] + [m], l[k..], s);
    OwnerConcat(l[..k] + [m], l[k..], s);
    assert [m][..0] == [];
    if m.Covers(s) { ResolveNone(l[k..], s); }
  }

  /** One log record applied to a live index: what it replaces is cut, and the
      record takes its place. */
  function Overlay(mode: Mode, l: seq<Mapping>, m: Mapping): seq<Mapping> {
    Insert(Cut(mode, l, m.offset, m.End()), m)
  }

  lemma {:induction false} RankAtEnd(l: seq<Mapping>, x: nat)
    requires forall i :: 0 <= i < |l| ==> l[i].offset < x
    ensures Rank(l, x) == |l|
  {
  }

  lemma {:induction false} InsertAtEnd(l: seq<Mapping>, m: Mapping)
    requires forall i :: 0 <= i < |l| ==> l[i].offset < m.offset
    ensures Insert(l, m) == l + [m]
  {
    RankAtEnd(l, m.offset);
    assert l[..|l|] == l && l[|l|..] == [];
  }

  /** A record after everything live is simply added at the end. */
  lemma {:induction false} OverlayAtEnd(mode: Mode, l: seq<Mapping>, m: Mapping)
    requires Index(l) && Within(l, 0, m.offset)
    ensures Overlay(mode, l, m) == l + [m]
  {
    forall i | 0 <= i < |l|
      ensures l[i].offset < m.offset && l[i].End() <= m.offset
    {
      assert 0 < l[i].length;
    }
    CutClear(mode, l, m.offset, m.End());
    InsertAtEnd(l, m);
  }

  lemma {:induction false} ResolveOverlay(mode: Mode, l: seq<Mapping>, m: Mapping, s: int)
    requires Index(l)
    requires mode == HybridMode ==> Backed(l)
    ensures Resolve(Overlay(mode, l, m), s) == if m.Covers(s) then m.At(s) else Resolve(l, s)
  {
    ghost var hi := if |l| == 0 then 0 else l[|l| - 1].End();
    CutIndex(mode, l, m.offset, m.End(), 0, hi);
    ResolveInsert(Cut(mode, l, m.offset, m.End()), m, s);
    ResolveCut(mode, l, m.offset, m.End(), s);
  }

  // ----- appending with coalescing -----------------------------------------

  /** `m` continues `p`: adjacent, same layer, same kind, physically contiguous
      unless ZERO, and the joint length still fits the 14-bit field. */
  predicate Continues(p: Mapping, m: Mapping) {
    && p.End() == m.offset && p.tag == m.tag && p.zeroed == m.zeroed
    && (m.zeroed || p.moffset + p.length == m.moffset)
    && p.length + m.length <= MAX_LENGTH
  }

  /** Appends `m`, growing the last mapping instead when `m` continues it. */
  function Push(out: seq<Mapping>, m: Mapping): seq<Mapping> {
    if |out| > 0 && Continues(out[|out| - 1], m)
    then out[..|out| - 1] + [out[|out| - 1].(length := out[|out| - 1].length + m.length)]
    else out + [m]
  }

  lemma {:induction false} PushIndex(out: seq<Mapping>, m: Mapping, a: int)
    requires Index(out) && Within(out, a, m.offset) && a <= m.offset && 0 < m.length <= MAX_LENGTH
    ensures Index(Push(out, m)) && Within(Push(out, m), a, m.End())
  {
    if |out| > 0 && Continues(out[|out| - 1], m) {
      var p := out[|out| - 1];
      var q := p.(length := p.length + m.length);
      ConcatIndex(out[..|out| - 1], [q], a, p.offset, m.End());
    } else {
      ConcatIndex(out, [m], a, m.offset, m.End());
    }
  }

  lemma {:induction false} ResolvePush(out: seq<Mapping>, m: Mapping, s: int)
    requires Sorted(out) && Within(out, 0, m.offset)
    ensures Resolve(Push(out, m), s) == if m.Covers(s) then m.At(s) else Resolve(out, s)
  {
    if |out| > 0 && Continues(out[|out| - 1], m) {
      var rest, p := out[..|out| - 1], out[|out| - 1];
      assert out == rest + [p];
      ResolveLast(rest, p, s);
      ResolveLast(rest, p.(length := p.length + m.length), s);
    } else {
      ResolveLast(out, m, s);
    }
  }
}
