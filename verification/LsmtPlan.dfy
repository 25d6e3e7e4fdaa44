/** Planning a write of an LSMT upper: live DATA is overwritten in place and
    every other sector gets fresh payload. */
module LsmtPlan {
  import opened Segments
  import opened SectorArray
  import opened LsmtReplay

  /** One contiguous part of a planned write. */
  datatype Part = Part(m: Mapping, inplace: bool)

  function Maps(parts: seq<Part>): seq<Mapping> {
    seq(|parts|, i requires 0 <= i < |parts| => parts[i].m)
  }

  lemma {:induction false} MapsAppend(parts: seq<Part>, part: Part)
    ensures Maps(parts + [part]) == Maps(parts) + [part.m]
  {
  }

  /** Sector s gets the payload it already has, or payload from [end0, end) if
      it has none. */
  predicate PlannedAt(x: Sector, had: Sector, end0: nat, end: nat) {
    x.Data? && x.tag == 0 && (x == had || (!had.Data? && end0 <= x.phys < end))
  }

  /** The plan covers exactly [lo, hi), and fresh payload is used once. */
  ghost predicate PlanOk(plan: seq<Mapping>, segs: seq<Mapping>, lo: nat, hi: nat, end0: nat, end: nat) {
    && Index(plan) && Within(plan, lo, hi)
    && (forall s: int :: lo <= s < hi ==> PlannedAt(Resolve(plan, s), Resolve(segs, s), end0, end))
    && (forall s: int, t: int :: lo <= s < t < hi && !Resolve(segs, s).Data? && !Resolve(segs, t).Data? ==>
          Resolve(plan, s).phys < Resolve(plan, t).phys)
  }

  lemma {:induction false} PlanPush(plan: seq<Mapping>, segs: seq<Mapping>, lo: nat, cur: nat, m: Mapping, end0: nat,
                                    end: nat)
    requires PlanOk(plan, segs, lo, cur, end0, end) && lo <= cur && end0 <= end
    requires m.offset == cur && 0 < m.length <= MAX_LENGTH && !m.zeroed && m.tag == 0
    requires (forall s: int :: m.Covers(s) ==> Resolve(segs, s) == m.At(s))
             || (m.moffset == end && forall s: int :: m.Covers(s) ==> !Resolve(segs, s).Data?)
    ensures PlanOk(plan + [m], segs, lo, m.End(), end0, if Resolve(segs, cur).Data? then end else end + m.length)
  {
    ConcatIndex(plan, [m], lo, cur, m.End());
    forall s: int
      ensures Resolve(plan + [m], s) == if m.Covers(s) then m.At(s) else Resolve(plan, s)
    {
      ResolveLast(plan, m, s);
    }
    assert m.Covers(cur);
  }

  /** Plans a piece over [lo, hi) against the live segments, taking fresh payload
      from `end0` on. */
  method PlanPiece(segs: seq<Mapping>, lo: nat, hi: nat, end0: nat, ghost sectors: nat, ghost size: nat)
    returns (parts: seq<Part>, end: nat)
    requires SegsOk(segs, sectors, size) && lo < hi && hi - lo <= MAX_LENGTH
    ensures end >= end0 && PlanOk(Maps(parts), segs, lo, hi, end0, end)
    ensures forall i :: 0 <= i < |parts| ==> PartOk(parts[i], segs, end0, end)
    ensures FreshInOrder(parts)
  {
    parts, end := [], end0;
    assert Maps(parts) == [];
    var cur := lo;
    var k := UpperBound(segs, lo);
    forall s: int | lo <= s < hi && (k == |segs| || s < segs[k].offset)
      ensures !Resolve(segs, s).Data?
    {
      GapIsHole(segs, k, s);
    }
    while k < |segs| && segs[k].offset < hi
      invariant lo <= cur <= hi && end0 <= end && k <= |segs|
      invariant PlanOk(Maps(parts), segs, lo, cur, end0, end)
      invariant forall i :: 0 <= i < |parts| ==> PartOk(parts[i], segs, end0, end)
      invariant FreshInOrder(parts)
      invariant forall s: int :: cur <= s < hi && (k == |segs| || s < segs[k].offset) ==> !Resolve(segs, s).Data?
      invariant k < |segs| && segs[k].offset < hi ==> cur < segs[k].End() && cur < hi
    {
      var m := segs[k];
      if !m.zeroed {
        if m.offset > cur {
          parts, end := PushFresh(parts, segs, lo, cur, m.offset, end0, end);
          cur := m.offset;
        }
        parts := PushInPlace(parts, segs, k, lo, cur, Min(m.End(), hi), end0, end);
        cur := Min(m.End(), hi);
      }
      SkipTo(segs, k, cur, hi);
      k := k + 1;
    }
    if cur < hi {
      parts, end := PushFresh(parts, segs, lo, cur, hi, end0, end);
    }
  }

  /** What a single operation promises. */
  ghost predicate PartOk(part: Part, segs: seq<Mapping>, end0: nat, end: nat) {
    && 0 < part.m.length <= MAX_LENGTH && !part.m.zeroed && part.m.tag == 0
    && (if part.inplace then forall s: int :: part.m.Covers(s) ==> Resolve(segs, s) == part.m.At(s)
        else && end0 <= part.m.moffset && part.m.moffset + part.m.length <= end
             && forall s: int :: part.m.Covers(s) ==> !Resolve(segs, s).Data?)
  }

  /** Fresh extents follow one another in the payload. */
  ghost predicate FreshInOrder(parts: seq<Part>) {
    forall i, j :: 0 <= i < j < |parts| && !parts[i].inplace && !parts[j].inplace ==>
              parts[i].m.moffset + parts[i].m.length <= parts[j].m.moffset
  }

  method PushFresh(parts: seq<Part>, ghost segs: seq<Mapping>, ghost lo: nat, cur: nat, to: nat, ghost end0: nat,
                   end: nat)
    returns (next: seq<Part>, newEnd: nat)
    requires lo <= cur < to && to - cur <= MAX_LENGTH && end0 <= end && PlanOk(Maps(parts), segs, lo, cur, end0, end)
    requires FreshInOrder(parts)
    requires forall i :: 0 <= i < |parts| ==> PartOk(parts[i], segs, end0, end)
    requires forall s: int :: cur <= s < to ==> !Resolve(segs, s).Data?
    ensures newEnd >= end && PlanOk(Maps(next), segs, lo, to, end0, newEnd) && FreshInOrder(next)
    ensures forall i :: 0 <= i < |next| ==> PartOk(next[i], segs, end0, newEnd)
  {
    var m := Mapping(cur, to - cur, end, false, 0);
    PlanPush(Maps(parts), segs, lo, cur, m, end0, end);
    MapsAppend(parts, Part(m, false));
    next, newEnd := parts + [Part(m, false)], end + (to - cur);
  }

  method PushInPlace(parts: seq<Part>, segs: seq<Mapping>, k: nat, ghost lo: nat, cur: nat, to: nat, ghost end0: nat,
                     ghost end: nat)
    returns (next: seq<Part>)
    requires Index(segs) && k < |segs| && !segs[k].zeroed && segs[k].tag == 0
    requires segs[k].offset <= cur < to <= segs[k].End()
    requires lo <= cur && end0 <= end && PlanOk(Maps(parts), segs, lo, cur, end0, end) && FreshInOrder(parts)
    requires forall i :: 0 <= i < |parts| ==> PartOk(parts[i], segs, end0, end)
    ensures PlanOk(Maps(next), segs, lo, to, end0, end) && FreshInOrder(next)
    ensures forall i :: 0 <= i < |next| ==> PartOk(next[i], segs, end0, end)
  {
    var m := Mapping(cur, to - cur, segs[k].moffset + (cur - segs[k].offset), false, 0);
    forall s: int | m.Covers(s)
      ensures Resolve(segs, s) == m.At(s)
    {
      ResolveAt(segs, k, s);
    }
    PlanPush(Maps(parts), segs, lo, cur, m, end0, end);
    MapsAppend(parts, Part(m, true));
    next := parts + [Part(m, true)];
  }

  /** After segment k nothing live as DATA starts before the next one. */
  lemma {:induction false} SkipTo(segs: seq<Mapping>, k: nat, cur: nat, hi: nat)
    requires Index(segs) && k < |segs| && (segs[k].zeroed || cur == Min(segs[k].End(), hi))
    requires forall s: int :: cur <= s < hi && s < segs[k].offset ==> !Resolve(segs, s).Data?
    ensures forall s: int :: cur <= s < hi && (k + 1 == |segs| || s < segs[k + 1].offset) ==> !Resolve(segs, s).Data?
  {
    forall s: int | cur <= s < hi && (k + 1 == |segs| || s < segs[k + 1].offset) && s >= segs[k].offset
      ensures !Resolve(segs, s).Data?
    {
      if segs[k].Covers(s) {
        ResolveAt(segs, k, s);
      } else {
        forall i | 0 <= i < k + 1
          ensures segs[i].End() <= s
        {
          assert i < k ==> segs[i].End() <= segs[k].offset;
        }
        GapIsHole(segs, k + 1, s);
      }
    }
  }
}
