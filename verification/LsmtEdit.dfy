/** Carrying out a planned LSMT write: payload, then the coalescing edit of the
    sorted segment list. */
module LsmtEdit {
  import opened Segments
  import opened SectorArray
  import opened LsmtReplay
  import opened LsmtJournal
  import opened LsmtPlan

  // ----- the plan owns what it writes ---------------------------------------------

  lemma {:induction false} PlanInjective(plan: seq<Mapping>, segs: seq<Mapping>, lo: nat, hi: nat, end0: nat,
                                         end: nat, sectors: nat, size: nat)
    requires PlanOk(plan, segs, lo, hi, end0, end) && SegsOk(segs, sectors, size) && DataInjective(segs) && size <= end0
    ensures DataInjective(plan)
  {
    forall s: int, t: int | s != t && Resolve(plan, s).Data? && Resolve(plan, t).Data?
      ensures Resolve(plan, s).phys != Resolve(plan, t).phys
    {
      if !(lo <= s < hi) { ResolveOutside(plan, lo, hi, s); }
      if !(lo <= t < hi) { ResolveOutside(plan, lo, hi, t); }
      if Resolve(segs, s).Data? { DataBelow(segs, sectors, size, s); }
      if Resolve(segs, t).Data? { DataBelow(segs, sectors, size, t); }
    }
  }

  predicate InExtent(m: Mapping, p: int) { m.moffset <= p < m.moffset + m.length }

  /** Payload of a sector outside the request is not in the plan. */
  lemma {:induction false} PlanElsewhere(plan: seq<Mapping>, segs: seq<Mapping>, lo: nat, hi: nat, end0: nat, end: nat,
                                         sectors: nat, size: nat, s: int, k: nat)
    requires PlanOk(plan, segs, lo, hi, end0, end) && SegsOk(segs, sectors, size) && DataInjective(segs) && size <= end0
    requires !(lo <= s < hi) && Resolve(segs, s).Data? && k < |plan| && !plan[k].zeroed
    ensures !InExtent(plan[k], Resolve(segs, s).phys)
  {
    var p := Resolve(segs, s).phys;
    DataBelow(segs, sectors, size, s);
    if InExtent(plan[k], p) {
      var t := plan[k].offset + (p - plan[k].moffset);
      ResolveAt(plan, k, t);
    }
  }

  /** A plan that covers [lo, hi) leaves no gaps between its parts. */
  lemma {:induction false} PlanTiles(plan: seq<Mapping>, lo: nat, hi: nat, k: nat)
    requires Index(plan) && Within(plan, lo, hi) && lo < hi && k <= |plan|
    requires forall s: int :: lo <= s < hi ==> Resolve(plan, s).Data?
    ensures k < |plan| ==> plan[k].offset == if k == 0 then lo else plan[k - 1].End()
    ensures k == |plan| ==> k > 0 && plan[k - 1].End() == hi
  {
    var x := if k == 0 then lo else plan[k - 1].End();
    forall i | 0 <= i < k
      ensures plan[i].End() <= x
    {
      assert i < k - 1 ==> plan[i].End() <= plan[k - 1].offset;
    }
    if x < hi && (k < |plan| ==> x < plan[k].offset) { GapIsHole(plan, k, x); }
  }

  // ----- payload ----------------------------------------------------------------------

  /** The payload file after a write at sector p; a gap past its end reads zero. */
  function PutAt(data: seq<Block>, p: nat, blocks: seq<Block>): (r: seq<Block>)
    requires |blocks| > 0
    ensures |r| == if p + |blocks| > |data| then p + |blocks| else |data|
    ensures forall i :: 0 <= i < |r| ==> r[i] == if p <= i < p + |blocks| then blocks[i - p] else Peek(data, i)
  {
    seq(if p + |blocks| > |data| then p + |blocks| else |data|,
        i requires 0 <= i => if p <= i < p + |blocks| then blocks[i - p] else Peek(data, i))
  }

  /** None of the first n parts touches payload sector p. */
  ghost predicate Apart(plan: seq<Mapping>, n: nat, p: int)
    requires n <= |plan|
  {
    forall i :: 0 <= i < n ==> !InExtent(plan[i], p)
  }

  /** Payload outside the first n parts is as before. */
  ghost predicate Untouched(before: seq<Block>, after: seq<Block>, plan: seq<Mapping>, n: nat)
    requires n <= |plan|
  {
    |after| >= |before| && forall p: nat :: Apart(plan, n, p) ==> Peek(after, p) == Peek(before, p)
  }

  lemma {:induction false} PutUntouched(data: seq<Block>, before: seq<Block>, plan: seq<Mapping>, i: nat,
                                        blocks: seq<Block>)
    requires i < |plan| && Untouched(data, before, plan, i) && 0 < |blocks| <= plan[i].length
    ensures Untouched(data, PutAt(before, plan[i].moffset, blocks), plan, i + 1)
  {
    var after := PutAt(before, plan[i].moffset, blocks);
    forall p: nat | Apart(plan, i + 1, p)
      ensures Peek(after, p) == Peek(data, p)
    {
      assert !InExtent(plan[i], p) && Apart(plan, i, p);
    }
  }

  lemma {:induction false} UntouchedMore(data: seq<Block>, after: seq<Block>, plan: seq<Mapping>, i: nat, n: nat)
    requires i <= n <= |plan| && Untouched(data, after, plan, i)
    ensures Untouched(data, after, plan, n)
  {
    forall p: nat | Apart(plan, n, p)
      ensures Peek(after, p) == Peek(data, p)
    {
      assert Apart(plan, i, p);
    }
  }

  /** Sectors up to `cur` hold the request's blocks where the plan puts them. */
  ghost predicate Landed(after: seq<Block>, plan: seq<Mapping>, lo: nat, cur: nat, blocks: seq<Block>) {
    forall s: int :: lo <= s < cur && s - lo < |blocks| ==>
      Resolve(plan, s).Data? && Resolve(plan, s).phys < |after| && Held(Resolve(plan, s), after) == blocks[s - lo]
  }

  lemma {:induction false} PutLanded(before: seq<Block>, plan: seq<Mapping>, i: nat, lo: nat, blocks: seq<Block>,
                                     piece: seq<Block>)
    requires Index(plan) && DataInjective(plan) && i < |plan| && lo <= plan[i].offset && !plan[i].zeroed
    requires Landed(before, plan, lo, plan[i].offset, blocks) && plan[i].End() - lo <= |blocks|
    requires piece == blocks[plan[i].offset - lo..plan[i].End() - lo]
    ensures Landed(PutAt(before, plan[i].moffset, piece), plan, lo, plan[i].End(), blocks)
  {
    var m, after := plan[i], PutAt(before, plan[i].moffset, piece);
    forall s: int | lo <= s < m.End()
      ensures Resolve(plan, s).Data? && Resolve(plan, s).phys < |after|
      ensures Held(Resolve(plan, s), after) == blocks[s - lo]
    {
      if m.Covers(s) {
        ResolveAt(plan, i, s);
      } else {
        var p := Resolve(plan, s).phys;
        if InExtent(m, p) { ResolveAt(plan, i, m.offset + (p - m.moffset)); }
      }
    }
  }

  /** Writes each part's blocks, in order. A failed write may tear its own
      extent; payload outside the plan stays. */
  method WriteParts(data: seq<Block>, plan: seq<Mapping>, lo: nat, hi: nat, blocks: seq<Block>, ghost end: nat)
    returns (ok: bool, after: seq<Block>)
    requires Index(plan) && Within(plan, lo, hi) && DataInjective(plan) && |blocks| == hi - lo && lo < hi
    requires forall s: int :: lo <= s < hi ==> Resolve(plan, s).Data?
    requires forall i :: 0 <= i < |plan| ==> !plan[i].zeroed && plan[i].moffset + plan[i].length <= end
    requires |data| <= end
    ensures Untouched(data, after, plan, |plan|) && |after| <= end
    ensures ok ==> Landed(after, plan, lo, hi, blocks)
  {
    after, ok := data, true;
    var i: nat := 0;
    PlanTiles(plan, lo, hi, 0);
    while ok && i < |plan|
      invariant i <= |plan| && |after| <= end && Untouched(data, after, plan, i)
      invariant ok ==> Landed(after, plan, lo, if i < |plan| then plan[i].offset else hi, blocks)
    {
      var m := plan[i];
      PlanTiles(plan, lo, hi, i + 1);
      ok := *;
      var piece := blocks[m.offset - lo..m.End() - lo];
      if ok {
        PutLanded(after, plan, i, lo, blocks, piece);
      } else {
        piece :| 0 < |piece| <= m.length;
      }
      PutUntouched(data, after, plan, i, piece);
      after := PutAt(after, m.moffset, piece);
      i := i + 1;
    }
    UntouchedMore(data, after, plan, i, |plan|);
  }

  // ----- segments ---------------------------------------------------------------------

  /** Adjacent DATA over adjacent payload, within the length field. */
  predicate CanFuse(a: Mapping, b: Mapping) {
    && a.End() == b.offset && a.Mend() == b.moffset && !a.zeroed && !b.zeroed && a.length + b.length <= MAX_LENGTH
  }

  function Fuse(v: seq<Mapping>, i: nat): seq<Mapping> {
    if i + 1 < |v| && CanFuse(v[i], v[i + 1])
    then v[..i] + [v[i].(length := v[i].length + v[i + 1].length)] + v[i + 2..]
    else v
  }

  lemma {:induction false} FuseMeans(v: seq<Mapping>, i: nat, s: int)
    requires i + 1 < |v| && CanFuse(v[i], v[i + 1]) && v[i].tag == v[i + 1].tag && v[i + 1].length > 0
    ensures Resolve(Fuse(v, i), s) == Resolve(v, s)
  {
    var a, x, y, b := v[..i], v[i], v[i + 1], v[i + 2..];
    var z := x.(length := x.length + y.length);
    assert v == a + [x, y] + b;
    ResolveLast([x], y, s);
    assert [x] + [y] == [x, y];
    ResolveConcat(a + [x, y], b, s);
    ResolveConcat(a, [x, y], s);
    ResolveConcat(a + [z], b, s);
    ResolveConcat(a, [z], s);
    ResolveLast([], z, s);
    ResolveLast([], x, s);
    assert [] + [z] == [z] && [] + [x] == [x];
  }

  function FusedEntry(v: seq<Mapping>, i: nat, j: nat): Mapping
    requires i + 1 < |v| && j + 1 < |v|
  {
    if j < i then v[j] else if j == i then v[i].(length := v[i].length + v[i + 1].length) else v[j + 1]
  }

  /** `r` is `v` with entries i and i + 1 made one. */
  ghost predicate FusedFrom(r: seq<Mapping>, v: seq<Mapping>, i: nat) {
    && i + 1 < |v| && CanFuse(v[i], v[i + 1]) && |r| == |v| - 1
    && (forall j :: 0 <= j < |r| ==> r[j] == FusedEntry(v, i, j))
  }

  lemma {:induction false} FuseSorted(r: seq<Mapping>, v: seq<Mapping>, i: nat, a: nat, b: nat)
    requires Sorted(v) && FusedFrom(r, v, i) && a < b < |r|
    ensures r[a].End() <= r[b].offset
  {
    var p, q := if a < i then a else a + 1, if b <= i then b else b + 1;
    assert r[a].End() == v[p].End() && r[b].offset == v[q].offset;
  }

  lemma {:induction false} FuseFits(r: seq<Mapping>, v: seq<Mapping>, i: nat, sectors: nat, size: nat, pin: nat)
    requires SegsFit(v, sectors, size, pin) && FusedFrom(r, v, i)
    ensures SegsFit(r, sectors, size, pin)
  {
    forall a, b | 0 <= a < b < |r|
      ensures r[a].End() <= r[b].offset
    {
      FuseSorted(r, v, i, a, b);
    }
  }

  lemma {:induction false} FuseKeeps(v: seq<Mapping>, i: nat, r: seq<Mapping>, sectors: nat, size: nat, pin: nat)
    requires SegsFit(v, sectors, size, pin) && i + 1 < |v| && CanFuse(v[i], v[i + 1]) && r == Fuse(v, i)
    ensures SegsFit(r, sectors, size, pin) && |r| < |v|
    ensures forall s: int :: Resolve(r, s) == Resolve(v, s)
  {
    FuseFits(r, v, i, sectors, size, pin);
    forall s: int
      ensures Resolve(r, s) == Resolve(v, s)
    {
      FuseMeans(v, i, s);
    }
  }

  /** Fuses entry i with the next where it can. */
  method FuseNext(v: seq<Mapping>, i: nat, ghost sectors: nat, ghost size: nat, ghost pin: nat)
    returns (r: seq<Mapping>, fused: bool)
    requires SegsFit(v, sectors, size, pin)
    ensures SegsFit(r, sectors, size, pin) && |r| <= |v| && forall s: int :: Resolve(r, s) == Resolve(v, s)
  {
    r, fused := v, i + 1 < |v| && CanFuse(v[i], v[i + 1]);
    if fused {
      r := Fuse(v, i);
      FuseKeeps(v, i, r, sectors, size, pin);
    }
  }

  /** No covered sector in [lo, hi): nothing of an index reaches into it. */
  lemma {:induction false} HolesClear(v: seq<Mapping>, lo: int, hi: int)
    requires lo < hi && Index(v) && forall s: int :: lo <= s < hi ==> Resolve(v, s) == Hole
    ensures Clear(v, lo, hi)
  {
    forall i | 0 <= i < |v|
      ensures v[i].End() <= lo || v[i].offset >= hi
    {
      var s := if v[i].offset < lo then lo else v[i].offset;
      if v[i].Covers(s) && s < hi { ResolveAt(v, i, s); }
    }
  }

  /** insert_sorted: joins the previous entry and then the next where it can. */
  method InsertFused(v: seq<Mapping>, m: Mapping, ghost sectors: nat, ghost size: nat, ghost pin: nat)
    returns (r: seq<Mapping>)
    requires SegsFit(v, sectors, size, pin) && Fits(m, size, pin) && 0 < m.length <= MAX_LENGTH && m.End() <= sectors
    requires forall s: int :: m.Covers(s) ==> Resolve(v, s) == Hole
    ensures SegsFit(r, sectors, size, pin) && |r| <= |v| + 1
    ensures forall s: int :: Resolve(r, s) == if m.Covers(s) then m.At(s) else Resolve(v, s)
  {
    var at := Rank(v, m.offset);
    r := PlainInsert(v, m, sectors, size, pin);
    if at > 0 {
      var fused;
      r, fused := FuseNext(r, at - 1, sectors, size, pin);
      if fused { at := at - 1; }
    }
    var also;
    r, also := FuseNext(r, at, sectors, size, pin);
  }

  method PlainInsert(v: seq<Mapping>, m: Mapping, ghost sectors: nat, ghost size: nat, ghost pin: nat)
    returns (r: seq<Mapping>)
    requires SegsFit(v, sectors, size, pin) && Fits(m, size, pin) && 0 < m.length <= MAX_LENGTH && m.End() <= sectors
    requires forall s: int :: m.Covers(s) ==> Resolve(v, s) == Hole
    ensures SegsFit(r, sectors, size, pin) && |r| == |v| + 1
    ensures forall s: int :: Resolve(r, s) == if m.Covers(s) then m.At(s) else Resolve(v, s)
  {
    HolesClear(v, m.offset, m.End());
    InsertKeeps(v, m, sectors, size, pin);
    InsertAt(v, m, 0);
    r := Insert(v, m);
  }

  lemma {:induction false} InsertKeeps(v: seq<Mapping>, m: Mapping, sectors: nat, size: nat, pin: nat)
    requires SegsFit(v, sectors, size, pin) && Fits(m, size, pin) && 0 < m.length <= MAX_LENGTH && m.End() <= sectors
    requires Clear(v, m.offset, m.End())
    ensures SegsFit(Insert(v, m), sectors, size, pin)
    ensures forall s: int :: Resolve(Insert(v, m), s) == if m.Covers(s) then m.At(s) else Resolve(v, s)
  {
    InsertSorted(v, m);
    InsertWithin(v, m, 0, sectors);
    forall i | 0 <= i < |Insert(v, m)|
      ensures Fits(Insert(v, m)[i], size, pin)
    {
      InsertAt(v, m, i);
    }
    forall s: int
      ensures Resolve(Insert(v, m), s) == if m.Covers(s) then m.At(s) else Resolve(v, s)
    {
      ResolveInsert(v, m, s);
    }
  }

  /** The segments after the first parts, up to sector `cur`, went in. */
  ghost predicate Edited(next: seq<Mapping>, segs: seq<Mapping>, plan: seq<Mapping>, lo: nat, cur: nat, hi: nat) {
    forall s: int :: Resolve(next, s) ==
      if lo <= s < cur then Resolve(plan, s) else if cur <= s < hi then Hole else Resolve(segs, s)
  }

  /** Drops coverage of [lo, hi), then inserts every part. */
  method EditSegments(segs: seq<Mapping>, plan: seq<Mapping>, lo: nat, hi: nat, ghost sectors: nat, ghost size: nat)
    returns (next: seq<Mapping>)
    requires SegsOk(segs, sectors, size) && lo < hi <= sectors
    requires Index(plan) && Within(plan, lo, hi) && forall s: int :: lo <= s < hi ==> Resolve(plan, s).Data?
    requires forall i :: 0 <= i < |plan| ==> SegOk(plan[i], size)
    ensures SegsOk(next, sectors, size)
    ensures forall s: int :: Resolve(next, s) == if lo <= s < hi then Resolve(plan, s) else Resolve(segs, s)
  {
    next := CutAll(LsmtMode, segs, lo, hi);
    CutSegsOk(segs, lo, hi, sectors, size);
    forall s: int
      ensures Resolve(next, s) == if lo <= s < hi then Hole else Resolve(segs, s)
    {
      ResolveCut(LsmtMode, segs, lo, hi, s);
    }
    var i: nat := 0;
    PlanTiles(plan, lo, hi, 0);
    while i < |plan|
      invariant i <= |plan| && SegsOk(next, sectors, size)
      invariant Edited(next, segs, plan, lo, if i < |plan| then plan[i].offset else hi, hi)
    {
      ghost var before := next;
      next := InsertFused(next, plan[i], sectors, size, DATA_START);
      PlanTiles(plan, lo, hi, i + 1);
      EditStep(before, next, segs, plan, i, lo, hi);
      i := i + 1;
    }
  }

  lemma {:induction false} EditStep(before: seq<Mapping>, next: seq<Mapping>, segs: seq<Mapping>, plan: seq<Mapping>,
                                    i: nat, lo: nat, hi: nat)
    requires Index(plan) && i < |plan| && lo <= plan[i].offset && plan[i].End() <= hi
    requires Edited(before, segs, plan, lo, plan[i].offset, hi)
    requires forall s: int :: Resolve(next, s) == if plan[i].Covers(s) then plan[i].At(s) else Resolve(before, s)
    ensures Edited(next, segs, plan, lo, plan[i].End(), hi)
  {
    forall s: int
      ensures plan[i].Covers(s) ==> Resolve(plan, s) == plan[i].At(s)
    {
      if plan[i].Covers(s) { ResolveAt(plan, i, s); }
    }
  }
}
