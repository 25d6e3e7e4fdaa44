/** Reading a merged stack: a two-level lookup directory over the merged index
    and the cursor loop that fills a buffer. */
module MergedRead {
  import opened Segments
  import opened SectorArray
  import opened LayerMerge

  /** The contents a resolved sector stands for, given each layer's payload. */
  function Content(x: Sector, payloads: seq<seq<Block>>): Block {
    match x
    case Hole => ZERO_BLOCK
    case Zero(_) => ZERO_BLOCK
    case Data(tag, p) => if tag < |payloads| then Peek(payloads[tag], p) else ZERO_BLOCK
  }

  // ----- lookup directory ---------------------------------------------------

  /** First position whose value exceeds x. */
  function FirstAbove(ends: seq<nat>, x: int): (k: nat)
    ensures k <= |ends|
    ensures forall i :: 0 <= i < k ==> ends[i] <= x
    ensures k < |ends| ==> x < ends[k]
  {
    if |ends| == 0 then 0
    else
      var k := FirstAbove(ends[..|ends| - 1], x);
      if k < |ends| - 1 then k else if x < ends[|ends| - 1] then k else |ends|
  }

  /** Entry g holds the end of the last segment of the g-th group of `stride`;
      the groups taken together are the whole index. */
  ghost predicate Directory(index: seq<Mapping>, ends: seq<nat>, stride: nat) {
    && stride > 0
    && |index| <= |ends| * stride
    && (forall g :: 0 <= g < |ends| ==>
          g * stride < |index| && ends[g] == index[Min((g + 1) * stride, |index|) - 1].End())
  }

  datatype View = View(index: seq<Mapping>, ends: seq<nat>, stride: nat, vsize: nat)

  ghost predicate ValidView(v: View) {
    Index(v.index) && (v.ends != [] ==> Directory(v.index, v.ends, v.stride))
  }

  lemma {:induction false} MulStep(g: nat, stride: nat)
    ensures (g + 1) * stride == g * stride + stride
  {
  }

  /** The directory part of MergedLsmt::open. */
  method BuildDirectory(index: seq<Mapping>) returns (ends: seq<nat>, stride: nat)
    requires Index(index)
    ensures |index| < 65536 ==> ends == []
    ensures |index| >= 65536 ==> ends != [] && stride >= 64 && Directory(index, ends, stride)
  {
    ends, stride := [], 0;
    if |index| >= 65536 {
      var size := |index|;
      var needed := size / 4096 + (if size % 4096 != 0 then 1 else 0);
      stride := if needed > 64 then needed else 64;
      var begin := 0;
      while begin < size
        invariant begin == |ends| * stride
        invariant forall g :: 0 <= g < |ends| ==>
                    g * stride < size && ends[g] == index[Min((g + 1) * stride, size) - 1].End()
      {
        var end := begin + Min(stride, size - begin);
        MulStep(|ends|, stride);
        ends := ends + [index[end - 1].End()];
        begin := begin + stride;
      }
    }
  }

  /** All segments of the groups before `g` end where the directory says. */
  lemma {:induction false} GroupsBefore(index: seq<Mapping>, ends: seq<nat>, stride: nat, g: nat, x: int, i: nat)
    requires Index(index) && Directory(index, ends, stride) && g <= |ends|
    requires forall h :: 0 <= h < g ==> ends[h] <= x
    requires i < Min(g * stride, |index|)
    ensures index[i].End() <= x
  {
    var last := Min(g * stride, |index|) - 1;
    assert g != 0;
    assert ends[g - 1] == index[Min((g - 1 + 1) * stride, |index|) - 1].End();
    assert i < last ==> index[i].End() <= index[last].offset;
  }

  /** Searching a slice that no earlier segment can belong to, and that holds
      the answer if there is one, is searching the whole index. */
  lemma {:induction false} SliceSearch(index: seq<Mapping>, first: nat, last: nat, x: int)
    requires first <= last <= |index|
    requires forall i :: 0 <= i < first ==> index[i].End() <= x
    requires last == |index| || (first < last && x < index[last - 1].End())
    ensures first + UpperBound(index[first..last], x) == UpperBound(index, x)
  {
    var slice := index[first..last];
    var k := first + UpperBound(slice, x);
    forall i | first <= i < k
      ensures index[i].End() <= x
    {
      assert index[i] == slice[i - first];
    }
    assert first < last ==> slice[last - 1 - first] == index[last - 1];
    assert k < last ==> index[k] == slice[k - first];
  }

  /** The grouped search finds exactly the flat search's segment, for every
      index, every directory stride and every start sector. */
  method Lookup(v: View, start: nat) returns (k: nat)
    requires ValidView(v)
    ensures k == UpperBound(v.index, start)
  {
    var first, last := 0, |v.index|;
    if v.ends != [] {
      var group := FirstAbove(v.ends, start);
      first := Min(group * v.stride, |v.index|);
      last := first + Min(v.stride, |v.index| - first);
      forall i | 0 <= i < first
        ensures v.index[i].End() <= start
      {
        GroupsBefore(v.index, v.ends, v.stride, group, start, i);
      }
      MulStep(group, v.stride);
      if group < |v.ends| {
        assert v.ends[group] == v.index[Min((group + 1) * v.stride, |v.index|) - 1].End();
      }
    }
    SliceSearch(v.index, first, last, start);
    k := first + UpperBound(v.index[first..last], start);
  }

  // ----- the read loop --------------------------------------------------------

  datatype ReadResult = ReadError | Filled(bytes: nat, blocks: seq<Block>)

  /** `piece` holds the contents of sectors [lo, hi). */
  ghost predicate Holds(piece: seq<Block>, index: seq<Mapping>, payloads: seq<seq<Block>>, lo: nat, hi: nat) {
    |piece| == hi - lo && forall t :: lo <= t < hi ==> piece[t - lo] == Content(Resolve(index, t), payloads)
  }

  /** A sector whose payload, at this place of this layer, fails to read. */
  predicate Faulty(x: Sector, faults: set<(nat, nat)>) { x.Data? && (x.tag, x.phys) in faults }

  ghost predicate Intact(index: seq<Mapping>, faults: set<(nat, nat)>, lo: nat, hi: nat) {
    forall t :: lo <= t < hi ==> !Faulty(Resolve(index, t), faults)
  }

  // ----- one piece ---------------------------------------------------------------

  /** What a source answers: nothing when the first sector fails, else the sectors
      up to the next failure or the end of the payload. */
  method SourceRead(payloads: seq<seq<Block>>, faults: set<(nat, nat)>, tag: nat, p: nat, n: nat)
    returns (r: Option<seq<Block>>)
    requires n > 0
    ensures r.None? <==> (tag, p) in faults
    ensures r.Some? ==> |r.value| <= n
    ensures r.Some? ==> forall i: nat :: i < |r.value| ==> Got(r.value[i], payloads, faults, tag, p + i)
    ensures r.Some? && |r.value| < n ==> !Readable(payloads, faults, tag, p + |r.value|)
    ensures r.Some? && !Readable(payloads, faults, tag, p) ==> r.value == []
  {
    if (tag, p) in faults { return None; }
    var got: seq<Block> := [];
    while |got| < n && Readable(payloads, faults, tag, p + |got|)
      invariant |got| <= n && (!Readable(payloads, faults, tag, p) ==> got == [])
      invariant forall i: nat :: i < |got| ==> Got(got[i], payloads, faults, tag, p + i)
    {
      got := got + [payloads[tag][p + |got|]];
    }
    r := Some(got);
  }

  predicate Readable(payloads: seq<seq<Block>>, faults: set<(nat, nat)>, tag: nat, p: nat) {
    tag < |payloads| && p < |payloads[tag]| && (tag, p) !in faults
  }

  /** A sector read as it is. */
  predicate Got(x: Block, payloads: seq<seq<Block>>, faults: set<(nat, nat)>, tag: nat, p: nat) {
    Readable(payloads, faults, tag, p) && x == payloads[tag][p]
  }

  /** Some sector of the mapping from `lo` to t fails to read. */
  ghost predicate FaultBefore(m: Mapping, faults: set<(nat, nat)>, lo: int, t: int) {
    exists u: int :: lo <= u <= t && m.Covers(u) && Faulty(m.At(u), faults)
  }

  /** What one piece holds: each sector up to the first that fails, then zeroes. */
  ghost predicate PieceHolds(piece: seq<Block>, m: Mapping, payloads: seq<seq<Block>>, faults: set<(nat, nat)>, lo: nat,
                             hi: nat)
    requires m.offset <= lo <= hi <= m.End()
  {
    && |piece| == hi - lo
    && forall t: int :: lo <= t < hi ==>
         piece[t - lo] == if FaultBefore(m, faults, lo, t) then ZERO_BLOCK else Content(m.At(t), payloads)
  }

  /** A DATA piece: a short read is retried once where it stopped, an error of the
      retry is dropped and what is missing is filled with zeroes. */
  method ReadPiece(m: Mapping, payloads: seq<seq<Block>>, faults: set<(nat, nat)>, lo: nat, hi: nat)
    returns (r: Option<seq<Block>>)
    requires m.offset <= lo < hi <= m.End() && !m.zeroed
    ensures r.None? <==> Faulty(m.At(lo), faults)
    ensures r.Some? ==> PieceHolds(r.value, m, payloads, faults, lo, hi)
  {
    hide PieceHolds;
    hide Got;
    var p, n := m.moffset + (lo - m.offset), hi - lo;
    var first := SourceRead(payloads, faults, m.tag, p, n);
    if first.None? { return None; }
    var got := first.value;
    FilledPiece(m, payloads, faults, lo, hi, got);
    if |got| < n {
      var retry := SourceRead(payloads, faults, m.tag, p + |got|, n - |got|);
      // The retry brings nothing: it fails again, or the payload has ended.
      var more := if retry.Some? then retry.value else [];
      assert got + more == got;
      got := got + more;
    }
    r := Some(got + Zeros(n - |got|));
  }

  lemma {:induction false} FilledPiece(m: Mapping, payloads: seq<seq<Block>>, faults: set<(nat, nat)>, lo: nat, hi: nat,
                                       got: seq<Block>)
    requires m.offset <= lo < hi <= m.End() && !m.zeroed && |got| <= hi - lo
    requires var p := m.moffset + (lo - m.offset);
      && (forall i: nat :: i < |got| ==> Got(got[i], payloads, faults, m.tag, p + i))
      && (|got| < hi - lo ==> !Readable(payloads, faults, m.tag, p + |got|))
    ensures PieceHolds(got + Zeros(hi - lo - |got|), m, payloads, faults, lo, hi)
  {
    var p := m.moffset + (lo - m.offset);
    forall t: int | lo <= t < lo + |got|
      ensures !Faulty(m.At(t), faults) && got[t - lo] == Content(m.At(t), payloads)
    {
      assert Got(got[t - lo], payloads, faults, m.tag, p + (t - lo));
    }
    forall t: int | lo + |got| <= t < hi
      ensures FaultBefore(m, faults, lo, t) || Content(m.At(t), payloads) == ZERO_BLOCK
    {
      var u := lo + |got|;
      assert m.Covers(u) && m.At(u) == Data(m.tag, p + |got|);
    }
  }

  // ----- the cursor loop ------------------------------------------------------------

  /** The part of a mapping a request reaches starts with a failing sector. */
  predicate PieceFails(m: Mapping, faults: set<(nat, nat)>, start: nat, end: nat) {
    var lo := if m.offset < start then start else m.offset;
    lo < end && m.Covers(lo) && Faulty(m.At(lo), faults)
  }

  /** The request is refused. */
  ghost predicate Refuses(index: seq<Mapping>, faults: set<(nat, nat)>, start: nat, end: nat) {
    exists k :: 0 <= k < |index| && PieceFails(index[k], faults, start, end)
  }

  /** An earlier sector of the same piece fails, so this one is filled with zero. */
  ghost predicate Shadowed(index: seq<Mapping>, faults: set<(nat, nat)>, start: nat, t: int) {
    exists k :: 0 <= k < |index| && index[k].Covers(t) && FaultBefore(index[k], faults, start, t)
  }

  /** What a request that is not refused gets for a sector. */
  ghost function Served(index: seq<Mapping>, payloads: seq<seq<Block>>, faults: set<(nat, nat)>, start: nat, t: int)
    : Block
  {
    if Shadowed(index, faults, start, t) then ZERO_BLOCK else Content(Resolve(index, t), payloads)
  }

  ghost predicate Serves(out: seq<Block>, index: seq<Mapping>, payloads: seq<seq<Block>>, faults: set<(nat, nat)>,
                         start: nat, end: nat)
    requires start <= end
  {
    && |out| == end - start
    && forall t: int :: start <= t < end ==> out[t - start] == Served(index, payloads, faults, start, t)
  }

  /** Where the cursor stands: before mapping k, and inside it only at the start. */
  ghost predicate Cursor(index: seq<Mapping>, k: nat, start: nat, cur: nat) {
    && k <= |index| && start <= cur && (forall i :: 0 <= i < k ==> index[i].End() <= cur)
    && (k < |index| ==> cur < index[k].End() && (index[k].offset < cur ==> cur == start))
  }

  lemma {:induction false} NotData(index: seq<Mapping>, payloads: seq<seq<Block>>, faults: set<(nat, nat)>, k: nat,
                                   start: nat, lo: nat, hi: nat)
    requires Index(index) && Cursor(index, k, start, lo) && lo <= hi
    requires k < |index| ==> hi <= index[k].offset || (index[k].zeroed && index[k].offset <= lo && hi <= index[k].End())
    ensures forall t: int :: lo <= t < hi ==> Served(index, payloads, faults, start, t) == ZERO_BLOCK
  {
    forall t: int | lo <= t < hi
      ensures Served(index, payloads, faults, start, t) == ZERO_BLOCK
    {
      if k < |index| && index[k].offset <= lo { ResolveAt(index, k, t); } else { GapIsHole(index, k, t); }
    }
  }

  lemma {:induction false} DataServed(index: seq<Mapping>, payloads: seq<seq<Block>>, faults: set<(nat, nat)>, k: nat,
                                      start: nat, lo: nat, hi: nat, piece: seq<Block>)
    requires Index(index) && Cursor(index, k, start, lo) && k < |index| && index[k].offset <= lo < hi <= index[k].End()
    requires PieceHolds(piece, index[k], payloads, faults, lo, hi)
    ensures forall t: int :: lo <= t < hi ==> piece[t - lo] == Served(index, payloads, faults, start, t)
  {
    forall t: int | lo <= t < hi
      ensures piece[t - lo] == Served(index, payloads, faults, start, t)
    {
      ResolveAt(index, k, t);
      ShadowedIn(index, faults, k, start, lo, t);
    }
  }

  /** Only the mapping that covers a sector can shadow it. */
  lemma {:induction false} ShadowedIn(index: seq<Mapping>, faults: set<(nat, nat)>, k: nat, start: nat, lo: nat, t: int)
    requires Index(index) && k < |index| && index[k].Covers(t) && start <= lo <= t
    requires lo == if index[k].offset < start then start else index[k].offset
    ensures Shadowed(index, faults, start, t) <==> FaultBefore(index[k], faults, lo, t)
  {
    if Shadowed(index, faults, start, t) {
      var i :| 0 <= i < |index| && index[i].Covers(t) && FaultBefore(index[i], faults, start, t);
      assert i == k;
      var u: int :| start <= u <= t && index[i].Covers(u) && Faulty(index[i].At(u), faults);
      assert lo <= u <= t && index[k].Covers(u) && Faulty(index[k].At(u), faults);
    }
    if FaultBefore(index[k], faults, lo, t) {
      var u: int :| lo <= u <= t && index[k].Covers(u) && Faulty(index[k].At(u), faults);
      assert FaultBefore(index[k], faults, start, t);
    }
  }

  /** The next piece from the cursor: a gap, a ZERO or a DATA extent. */
  method NextPiece(index: seq<Mapping>, payloads: seq<seq<Block>>, faults: set<(nat, nat)>, k: nat, start: nat,
                   cur: nat, end: nat)
    returns (piece: Option<seq<Block>>, next: nat, k': nat)
    requires Index(index) && Cursor(index, k, start, cur) && cur < end
    ensures piece.None? ==> k < |index| && PieceFails(index[k], faults, start, end)
    ensures piece.Some? ==> cur < next <= end && |piece.value| == next - cur
    ensures piece.Some? ==> (next < end ==> Cursor(index, k', start, next)) && k <= k' <= |index|
    ensures piece.Some? ==> forall i :: k <= i < k' ==> !PieceFails(index[i], faults, start, end)
    ensures piece.Some? && next == end ==> forall i :: k <= i < |index| ==> !PieceFails(index[i], faults, start, end)
    ensures piece.Some? ==>
              forall t: int :: cur <= t < next ==> piece.value[t - cur] == Served(index, payloads, faults, start, t)
  {
    k' := k;
    if k == |index| || index[k].offset > cur {
      next := if k == |index| then end else Min(index[k].offset, end);
      NotData(index, payloads, faults, k, start, cur, next);
      piece := Some(Zeros(next - cur));
      return;
    }
    next := Min(index[k].End(), end);
    if index[k].End() <= next { k' := k + 1; }
    if index[k].zeroed {
      NotData(index, payloads, faults, k, start, cur, next);
      piece := Some(Zeros(next - cur));
    } else {
      piece := ReadPiece(index[k], payloads, faults, cur, next);
      if piece.Some? { DataServed(index, payloads, faults, k, start, cur, next, piece.value); }
    }
  }

  /** The cursor loop: refused exactly when some piece starts with a sector that
      fails to read; else every sector is served once, in order. */
  method FillRange(index: seq<Mapping>, payloads: seq<seq<Block>>, faults: set<(nat, nat)>, first: nat, start: nat,
                   end: nat)
    returns (ok: bool, out: seq<Block>)
    requires Index(index) && start <= end && first == UpperBound(index, start)
    ensures ok <==> !Refuses(index, faults, start, end)
    ensures ok ==> Serves(out, index, payloads, faults, start, end)
  {
    var k: nat, cur: nat := first, start;
    ok, out := true, [];
    PassedBefore(index, faults, k, start, end);
    while cur < end
      invariant start <= cur <= end && k <= |index| && (cur < end ==> Cursor(index, k, start, cur))
      invariant forall i :: 0 <= i < k ==> !PieceFails(index[i], faults, start, end)
      invariant cur == end ==> forall i :: k <= i < |index| ==> !PieceFails(index[i], faults, start, end)
      invariant Serves(out, index, payloads, faults, start, cur)
      decreases end - cur
    {
      var piece, next, k' := NextPiece(index, payloads, faults, k, start, cur, end);
      if piece.None? { return false, []; }
      ServesMore(out, piece.value, index, payloads, faults, start, cur, next);
      out := out + piece.value;
      cur, k := next, k';
    }
  }

  lemma {:induction false} PassedBefore(index: seq<Mapping>, faults: set<(nat, nat)>, k: nat, start: nat, end: nat)
    requires Index(index) && start <= end && k == UpperBound(index, start)
    ensures Cursor(index, k, start, start)
    ensures forall i :: 0 <= i < k ==> !PieceFails(index[i], faults, start, end)
    ensures start == end ==> forall i :: 0 <= i < |index| ==> !PieceFails(index[i], faults, start, end)
  {
  }

  lemma {:induction false} ServesMore(out: seq<Block>, piece: seq<Block>, index: seq<Mapping>,
                                      payloads: seq<seq<Block>>, faults: set<(nat, nat)>, start: nat, cur: nat,
                                      next: nat)
    requires start <= cur <= next && Serves(out, index, payloads, faults, start, cur) && |piece| == next - cur
    requires forall t: int :: cur <= t < next ==> piece[t - cur] == Served(index, payloads, faults, start, t)
    ensures Serves(out + piece, index, payloads, faults, start, next)
  {
  }

  // ----- what a reader gets -----------------------------------------------------------

  /** Without faults in reach nothing is refused and everything is right. */
  lemma {:induction false} IntactHolds(out: seq<Block>, index: seq<Mapping>, payloads: seq<seq<Block>>,
                                       faults: set<(nat, nat)>, start: nat, end: nat)
    requires Index(index) && start <= end && Intact(index, faults, start, end)
    ensures !Refuses(index, faults, start, end)
    ensures Serves(out, index, payloads, faults, start, end) ==> Holds(out, index, payloads, start, end)
  {
    if Refuses(index, faults, start, end) {
      var k :| 0 <= k < |index| && PieceFails(index[k], faults, start, end);
      var lo := if index[k].offset < start then start else index[k].offset;
      ResolveAt(index, k, lo);
    }
    forall t: int | start <= t < end
      ensures Served(index, payloads, faults, start, t) == Content(Resolve(index, t), payloads)
    {
      if Shadowed(index, faults, start, t) {
        var k :| 0 <= k < |index| && index[k].Covers(t) && FaultBefore(index[k], faults, start, t);
        var u: int :| start <= u <= t && index[k].Covers(u) && Faulty(index[k].At(u), faults);
        ResolveAt(index, k, u);
      }
    }
  }

  /** With faults, a request that is served is right exactly when every sector
      behind one, in its own piece, is zero anyway. */
  lemma {:induction false} ServedExactly(out: seq<Block>, index: seq<Mapping>, payloads: seq<seq<Block>>,
                                         faults: set<(nat, nat)>, start: nat, end: nat)
    requires start <= end && Serves(out, index, payloads, faults, start, end)
    ensures Holds(out, index, payloads, start, end)
            <==> forall t: int :: start <= t < end && Shadowed(index, faults, start, t) ==>
                   Content(Resolve(index, t), payloads) == ZERO_BLOCK
  {
    forall t: int | start <= t < end
      ensures out[t - start] == Content(Resolve(index, t), payloads)
              <==> (Shadowed(index, faults, start, t) ==> Content(Resolve(index, t), payloads) == ZERO_BLOCK)
    {
      assert out[t - start] == Served(index, payloads, faults, start, t);
    }
  }

  /** Such requests exist: two sectors of one extent, the second failing to read,
      are served with a zero in its place. */
  lemma {:induction false} FaultHidden(payload: seq<Block>, out: seq<Block>)
    requires |payload| > 9 && payload[9] != ZERO_BLOCK
    ensures var index, faults := [Mapping(0, 2, 8, false, 0)], {(0, 9)};
      && Index(index) && Faulty(Resolve(index, 1), faults) && !Refuses(index, faults, 0, 2)
      && (Serves(out, index, [payload], faults, 0, 2) ==> out == [payload[8], ZERO_BLOCK])
      && (Serves(out, index, [payload], faults, 0, 2) ==> !Holds(out, index, [payload], 0, 2))
  {
    var index, faults := [Mapping(0, 2, 8, false, 0)], {(0, 9)};
    ResolveAt(index, 0, 0);
    ResolveAt(index, 0, 1);
    ShadowedIn(index, faults, 0, 0, 0, 0);
    ShadowedIn(index, faults, 0, 0, 0, 1);
    assert index[0].Covers(1) && Faulty(index[0].At(1), faults);
    if Serves(out, index, [payload], faults, 0, 2) {
      assert out[0 - 0] == Served(index, [payload], faults, 0, 0);
      assert out[1 - 0] == Served(index, [payload], faults, 0, 1);
      assert out == [out[0], out[1]];
    }
  }

  /** The sectors a request reads. */
  function Reach(vsize: nat, count: nat, offset: nat): (r: (nat, nat))
    ensures r.0 <= r.1
  {
    var start := offset / SECTOR;
    if offset >= vsize then (start, start) else (start, (offset + Min(count, vsize - offset)) / SECTOR)
  }

  predicate Aligned(count: nat, offset: nat) { offset % SECTOR == 0 && count % SECTOR == 0 }

  /** MergedLsmt::pread in bytes: refused exactly for an unaligned request or one
      that reaches a DATA piece whose first sector fails to read. With an unaligned
      virtual size the reported count exceeds what the loop fills, by exactly the
      ragged tail. */
  method Pread(v: View, payloads: seq<seq<Block>>, faults: set<(nat, nat)>, count: nat, offset: nat)
    returns (r: ReadResult)
    requires ValidView(v)
    ensures var (start, end) := Reach(v.vsize, count, offset);
      && (r.Filled? <==> Aligned(count, offset) && !Refuses(v.index, faults, start, end))
      && (r.Filled? ==> Serves(r.blocks, v.index, payloads, faults, start, end))
    ensures r.Filled? ==> r.bytes == (if offset >= v.vsize then 0 else Min(count, v.vsize - offset))
    ensures r.Filled? ==>
              r.bytes == SECTOR * |r.blocks| + (if offset < v.vsize < offset + count then v.vsize % SECTOR else 0)
  {
    if !Aligned(count, offset) { return ReadError; }
    if offset >= v.vsize {
      PassedBefore(v.index, faults, UpperBound(v.index, offset / SECTOR), offset / SECTOR, offset / SECTOR);
      return Filled(0, []);
    }
    var clamped := Min(count, v.vsize - offset);
    var start, end := offset / SECTOR, (offset + clamped) / SECTOR;
    var k := Lookup(v, start);
    var ok, out := FillRange(v.index, payloads, faults, k, start, end);
    r := if ok then Filled(clamped, out) else ReadError;
  }

  /** No sector of the range fails in the layer that decides it. */
  ghost predicate StackIntact(layers: seq<seq<Mapping>>, faults: set<(nat, nat)>, lo: nat, hi: nat) {
    forall s: int :: lo <= s < hi ==> !FaultyIn(layers, faults, s)
  }

  predicate FaultyIn(layers: seq<seq<Mapping>>, faults: set<(nat, nat)>, s: int) {
    Faulty(Merged(layers, 0, s), faults)
  }

  lemma {:induction false} SameFaults(index: seq<Mapping>, layers: seq<seq<Mapping>>, faults: set<(nat, nat)>,
                                      start: nat, end: nat)
    requires Fills(index, [], layers, 0, 0, MAX_OFFSET) && (end <= MAX_OFFSET || start == end)
    ensures Intact(index, faults, start, end) <==> StackIntact(layers, faults, start, end)
  {
    forall s: int | start <= s < end
      ensures Faulty(Resolve(index, s), faults) == FaultyIn(layers, faults, s)
    {
    }
  }

  /** What the topmost layer covering a sector says it holds. */
  function InStack(layers: seq<seq<Mapping>>, payloads: seq<seq<Block>>, s: int): Block {
    Content(Merged(layers, 0, s), payloads)
  }

  lemma {:induction false} ServedStack(out: seq<Block>, index: seq<Mapping>, layers: seq<seq<Mapping>>,
                                       payloads: seq<seq<Block>>, faults: set<(nat, nat)>, start: nat, end: nat)
    requires Fills(index, [], layers, 0, 0, MAX_OFFSET) && start <= end && (end <= MAX_OFFSET || start == end)
    requires Serves(out, index, payloads, faults, start, end)
    ensures forall i: nat :: i < |out| && !Shadowed(index, faults, start, start + i) ==>
              out[i] == InStack(layers, payloads, start + i)
    ensures forall i: nat :: i < |out| && Shadowed(index, faults, start, start + i) ==> out[i] == ZERO_BLOCK
    ensures Holds(out, index, payloads, start, end) ==>
              forall i: nat :: i < |out| ==> out[i] == InStack(layers, payloads, start + i)
  {
    forall i: nat | i < |out|
      ensures out[i] == Served(index, payloads, faults, start, start + i)
      ensures Content(Resolve(index, start + i), payloads) == InStack(layers, payloads, start + i)
    {
      assert out[(start + i) - start] == Served(index, payloads, faults, start, start + i);
    }
    if Holds(out, index, payloads, start, end) {
      forall i: nat | i < |out|
        ensures out[i] == InStack(layers, payloads, start + i)
      {
        assert out[(start + i) - start] == Content(Resolve(index, start + i), payloads);
      }
    }
  }

  /** Opening a stack and reading it back. Refused exactly when the merged index is
      too long, the request is unaligned, or a merged piece it reaches starts with
      a sector that fails in the layer that decides it. Every sector served holds
      what the topmost layer covering it says, and zeroes where none does, or is
      zero behind a fault; without faults in reach all of them are right. */
  method OpenAndRead(layers: seq<seq<Mapping>>, payloads: seq<seq<Block>>, faults: set<(nat, nat)>, vsize: nat,
                     count: nat, offset: nat)
    returns (r: ReadResult)
    requires Stack(layers) && vsize <= MAX_OFFSET * SECTOR
    ensures var (start, end) := Reach(vsize, count, offset);
      var all := MergeOf(layers, 0, 0, MAX_OFFSET, []);
      && (r.Filled? <==> |all| <= MAX_INDEX && Aligned(count, offset) && !Refuses(all, faults, start, end))
      && (r.Filled? ==> |r.blocks| == end - start)
      && (r.Filled? ==> forall i: nat :: i < |r.blocks| && !Shadowed(all, faults, start, start + i) ==>
            r.blocks[i] == InStack(layers, payloads, start + i))
      && (r.Filled? ==> forall i: nat :: i < |r.blocks| && Shadowed(all, faults, start, start + i) ==>
            r.blocks[i] == ZERO_BLOCK)
      && (|all| <= MAX_INDEX && Aligned(count, offset) && StackIntact(layers, faults, start, end) ==> r.Filled?)
      && (r.Filled? && StackIntact(layers, faults, start, end) ==>
            forall i: nat :: i < |r.blocks| ==> r.blocks[i] == InStack(layers, payloads, start + i))
  {
    var merged := MergeIndexes(layers);
    if merged.None? { return ReadError; }
    var ends, stride := BuildDirectory(merged.value);
    r := Pread(View(merged.value, ends, stride, vsize), payloads, faults, count, offset);
    ghost var (start, end) := Reach(vsize, count, offset);
    SameFaults(merged.value, layers, faults, start, end);
    if StackIntact(layers, faults, start, end) {
      IntactHolds(if r.Filled? then r.blocks else [], merged.value, payloads, faults, start, end);
    }
    if r.Filled? { ServedStack(r.blocks, merged.value, layers, payloads, faults, start, end); }
  }
}
