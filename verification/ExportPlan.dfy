/** The deterministic layout of a sparse upper's exported delta: a normal form
    that depends on what each sector is, not on how ownership is fragmented. */
module ExportPlan {
  import opened Segments
  import opened SectorArray
  import opened LsmtReplay
  import opened LsmtSeal
  import LsmtFile

  datatype Kind = Absent | Zeroes | Payload

  function KindOf(m: Mapping): Kind { if m.zeroed then Zeroes else Payload }

  function KindAt(l: seq<Mapping>, s: int): Kind {
    match Resolve(l, s)
    case Hole => Absent
    case Zero(_) => Zeroes
    case Data(_, _) => Payload
  }

  ghost predicate SameKinds(a: seq<Mapping>, b: seq<Mapping>) {
    forall s: int :: KindAt(a, s) == KindAt(b, s)
  }

  /** A mapping as long as the record or the run of its kind allows. */
  predicate GreedyAt(m: Mapping, own: seq<Mapping>) {
    m.length == MAX_LENGTH || KindAt(own, m.End()) != KindOf(m)
  }

  /** DATA packed from the first payload sector on, in order. */
  ghost predicate Packs(q: seq<Mapping>) {
    && (|q| > 0 ==> q[0].moffset == DATA_START) && (forall i :: 0 <= i < |q| ==> q[i].tag == 0)
    && (forall i, j :: 0 <= i < j < |q| && j == i + 1 ==> q[j].moffset == q[i].Mend())
  }

  /** Where the packed payload ends. */
  function PhysicalEnd(q: seq<Mapping>): nat { if |q| == 0 then DATA_START else q[|q| - 1].Mend() }

  /** The plan for the sectors before y. */
  ghost predicate PlanTo(q: seq<Mapping>, own: seq<Mapping>, y: nat) {
    && Index(q) && Within(q, 0, y) && Packs(q)
    && (forall s: int :: KindAt(q, s) == if 0 <= s < y then KindAt(own, s) else Absent)
    && (forall i :: 0 <= i < |q| ==> GreedyAt(q[i], own))
  }

  lemma {:induction false} KindInside(l: seq<Mapping>, k: nat, s: int)
    requires Sorted(l) && k < |l| && l[k].Covers(s)
    ensures KindAt(l, s) == KindOf(l[k])
  {
    ResolveAt(l, k, s);
  }

  /** Plans for the same ownership agree as far as the shorter one goes. */
  lemma {:induction false} PrefixSame(q: seq<Mapping>, p: seq<Mapping>, own: seq<Mapping>, y: nat, z: nat, i: nat)
    requires PlanTo(q, own, y) && PlanTo(p, own, z) && y <= z && i <= |q|
    ensures i <= |p| && p[..i] == q[..i]
  {
    if i > 0 {
      PrefixSame(q, p, own, y, z, i - 1);
      NextStart(q, p, own, y, z, i - 1);
      NextLength(q, p, own, y, z, i - 1);
      if i > 1 { assert p[i - 2] == p[..i - 1][i - 2] && q[i - 2] == q[..i - 1][i - 2]; }
      assert p[i - 1] == q[i - 1];
      assert p[..i] == p[..i - 1] + [p[i - 1]] && q[..i] == q[..i - 1] + [q[i - 1]];
    }
  }

  lemma {:induction false} NextStart(q: seq<Mapping>, p: seq<Mapping>, own: seq<Mapping>, y: nat, z: nat, i: nat)
    requires PlanTo(q, own, y) && PlanTo(p, own, z) && y <= z && i < |q| && i <= |p| && p[..i] == q[..i]
    ensures i < |p| && p[i].offset == q[i].offset && p[i].zeroed == q[i].zeroed
  {
    var s := q[i].offset;
    KindInside(q, i, s);
    assert KindAt(p, s) == KindAt(own, s) == KindAt(q, s);
    var j := ResolveWitness(p, s);
    PastPrefix(q, p, i, j);
    if p[i].offset < s {
      var r := p[i].offset;
      KindInside(p, i, r);
      assert KindAt(q, r) == KindAt(own, r) == KindAt(p, r);
      var k := ResolveWitness(q, r);
      PastPrefix(p, q, i, k);
    }
    KindInside(p, i, s);
  }

  /** What covers a sector beyond a common prefix lies beyond it. */
  lemma {:induction false} PastPrefix(q: seq<Mapping>, p: seq<Mapping>, i: nat, j: nat)
    requires Index(q) && Index(p) && i < |q| && i <= |p| && p[..i] == q[..i] && j < |p| && p[j].End() > q[i].offset
    ensures j >= i && i < |p|
  {
    forall k | 0 <= k < i
      ensures p[k].End() <= q[i].offset
    {
      assert p[k] == p[..i][k] && q[k] == q[..i][k];
    }
  }

  lemma {:induction false} NextLength(q: seq<Mapping>, p: seq<Mapping>, own: seq<Mapping>, y: nat, z: nat, i: nat)
    requires PlanTo(q, own, y) && PlanTo(p, own, z) && y <= z && i < |q| && i < |p|
    requires p[i].offset == q[i].offset && p[i].zeroed == q[i].zeroed
    ensures p[i].length == q[i].length
  {
    var e, f := p[i].End(), q[i].End();
    assert e < y ==> KindAt(q, e) == KindAt(own, e);
    assert f < z ==> KindAt(p, f) == KindAt(own, f);
    if e < f { KindInside(q, i, e); }
    if f < e { KindInside(p, i, f); }
  }

  /** The normal form: ownership lists that make every sector the same kind, cut
      into whatever fragments, have one and the same plan. */
  lemma {:induction false} FragmentationFree(own: seq<Mapping>, p: seq<Mapping>, own': seq<Mapping>, p': seq<Mapping>,
                                             sectors: nat)
    requires SameKinds(own, own') && PlanTo(p, own, sectors) && PlanTo(p', own', sectors)
    ensures p == p'
  {
    assert PlanTo(p', own, sectors);
    PrefixSame(p, p', own, sectors, sectors, |p|);
    PrefixSame(p', p, own, sectors, sectors, |p'|);
    assert p[..|p|] == p && p'[..|p'|] == p';
  }

  // ----- make_plan ------------------------------------------------------------------

  /** Exact ownership: in order, inside the volume, untagged, DATA in place. */
  predicate EntryExact(m: Mapping, end: nat, sectors: nat) {
    && 0 < m.length <= MAX_LENGTH && end <= m.offset < sectors && m.length <= sectors - m.offset
    && m.tag == 0 && (m.zeroed || m.moffset == m.offset)
  }

  ghost predicate Exact(own: seq<Mapping>, sectors: nat) {
    forall i :: 0 <= i < |own| ==> EntryExact(own[i], if i == 0 then 0 else own[i - 1].End(), sectors)
  }

  lemma {:induction false} ExactIndex(own: seq<Mapping>, sectors: nat)
    requires Exact(own, sectors)
    ensures Index(own) && Within(own, 0, sectors)
  {
    forall i | 0 <= i < |own|
      ensures 0 < own[i].length <= MAX_LENGTH && own[i].End() <= sectors
      ensures (i > 0 ==> own[i - 1].End() <= own[i].offset)
    {
      assert EntryExact(own[i], if i == 0 then 0 else own[i - 1].End(), sectors);
    }
    LsmtFile.InOrderSorted(own);
  }

  method CheckExact(own: seq<Mapping>, sectors: nat) returns (ok: bool)
    ensures ok <==> Exact(own, sectors)
  {
    var end: nat := 0;
    var i: nat := 0;
    while i < |own|
      invariant i <= |own| && end == (if i == 0 then 0 else own[i - 1].End())
      invariant forall k :: 0 <= k < i ==> EntryExact(own[k], if k == 0 then 0 else own[k - 1].End(), sectors)
    {
      if !EntryExact(own[i], end, sectors) { return false; }
      end := own[i].End();
      i := i + 1;
    }
    ok := true;
  }

  /** A run of one kind, starting with entry i. */
  method Run(own: seq<Mapping>, i: nat) returns (last: nat, next: nat)
    requires Index(own) && i < |own|
    ensures i < next <= |own| && last == own[next - 1].End() && own[i].offset < last
    ensures forall s: int :: own[i].offset <= s < last ==> KindAt(own, s) == KindOf(own[i])
    ensures KindAt(own, last) != KindOf(own[i])
    ensures DataLength(own, next) == DataLength(own, i) + if own[i].zeroed then 0 else last - own[i].offset
  {
    last, next := own[i].End(), i + 1;
    forall s: int | own[i].Covers(s)
      ensures KindAt(own, s) == KindOf(own[i])
    {
      KindInside(own, i, s);
    }
    while next < |own| && own[next].offset == last && own[next].zeroed == own[i].zeroed
      invariant i < next <= |own| && last == own[next - 1].End() && own[i].offset < last
      invariant forall s: int :: own[i].offset <= s < last ==> KindAt(own, s) == KindOf(own[i])
      invariant DataLength(own, next) == DataLength(own, i) + if own[i].zeroed then 0 else last - own[i].offset
    {
      forall s: int | own[next].Covers(s)
        ensures KindAt(own, s) == KindOf(own[i])
      {
        KindInside(own, next, s);
      }
      last, next := own[next].End(), next + 1;
    }
    RunEnds(own, next);
  }

  lemma {:induction false} RunEnds(own: seq<Mapping>, next: nat)
    requires Index(own) && 0 < next <= |own|
    ensures var last := own[next - 1].End();
      KindAt(own, last) == if next < |own| && own[next].offset == last then KindOf(own[next]) else Absent
  {
    var last := own[next - 1].End();
    if next < |own| && own[next].offset == last {
      KindInside(own, next, last);
    } else {
      forall k | 0 <= k < next
        ensures own[k].End() <= last
      {
        assert k < next - 1 ==> own[k].End() <= own[next - 1].offset;
      }
      GapIsHole(own, next, last);
    }
  }

  /** One mapping of a run. */
  lemma {:induction false} EmitStep(q: seq<Mapping>, own: seq<Mapping>, m: Mapping, last: nat)
    requires PlanTo(q, own, m.offset) && m.offset < last && m.length == Min(last - m.offset, MAX_LENGTH)
    requires m.tag == 0 && m.moffset == PhysicalEnd(q)
    requires (forall s: int :: m.offset <= s < last ==> KindAt(own, s) == KindOf(m)) && KindAt(own, last) != KindOf(m)
    ensures PlanTo(q + [m], own, m.End())
  {
    ConcatIndex(q, [m], 0, m.offset, m.End());
    PacksMore(q, m);
    KindsMore(q, own, m);
    assert GreedyAt(m, own);
  }

  lemma {:induction false} PacksMore(q: seq<Mapping>, m: Mapping)
    requires Packs(q) && m.tag == 0 && m.moffset == PhysicalEnd(q)
    ensures Packs(q + [m])
  {
    var r := q + [m];
    forall i, j | 0 <= i < j < |r| && j == i + 1
      ensures r[j].moffset == r[i].Mend()
    {
      if j < |q| { assert q[j].moffset == q[i].Mend(); }
    }
  }

  lemma {:induction false} KindsMore(q: seq<Mapping>, own: seq<Mapping>, m: Mapping)
    requires forall s: int :: KindAt(q, s) == if 0 <= s < m.offset then KindAt(own, s) else Absent
    requires forall s: int :: m.Covers(s) ==> KindAt(own, s) == KindOf(m)
    ensures forall s: int :: KindAt(q + [m], s) == if 0 <= s < m.End() then KindAt(own, s) else Absent
  {
    forall s: int
      ensures KindAt(q + [m], s) == if 0 <= s < m.End() then KindAt(own, s) else Absent
    {
      ResolveLast(q, m, s);
      assert KindAt(q, s) == if 0 <= s < m.offset then KindAt(own, s) else Absent;
      if m.Covers(s) { assert KindAt(q + [m], s) == KindOf(m); } else { assert KindAt(q + [m], s) == KindAt(q, s); }
    }
  }

  lemma {:induction false} SkipGap(q: seq<Mapping>, own: seq<Mapping>, y: nat, z: nat)
    requires PlanTo(q, own, y) && y <= z && forall s: int :: y <= s < z ==> KindAt(own, s) == Absent
    ensures PlanTo(q, own, z)
  {
  }

  /** Emits a run in record-sized pieces; None when the index would overflow. */
  method Emit(plan: seq<Mapping>, start: nat, last: nat, zero: bool, physical: nat, ghost own: seq<Mapping>)
    returns (r: Option<seq<Mapping>>, next: nat)
    requires PlanTo(plan, own, start) && physical == PhysicalEnd(plan) && |plan| <= MAX_INDEX && start < last
    requires (forall s: int :: start <= s < last ==> KindAt(own, s) == if zero then Zeroes else Payload)
    requires KindAt(own, last) != if zero then Zeroes else Payload
    ensures r.Some? ==> PlanTo(r.value, own, last) && |r.value| <= MAX_INDEX && next == PhysicalEnd(r.value)
    ensures r.Some? ==> next == physical + if zero then 0 else last - start
    ensures r.None? ==>
              exists q, y: nat :: PlanTo(q, own, y) && |q| == MAX_INDEX && y < last && KindAt(own, y) != Absent
  {
    var q, first := plan, start;
    next := physical;
    while first < last
      invariant start <= first <= last && PlanTo(q, own, first) && |q| <= MAX_INDEX
      invariant next == PhysicalEnd(q) && next == physical + if zero then 0 else first - start
    {
      if |q| == MAX_INDEX {
        assert KindAt(own, first) != Absent;
        return None, next;
      }
      var m := Mapping(first, Min(last - first, MAX_LENGTH), next, zero, 0);
      EmitStep(q, own, m, last);
      q := q + [m];
      if !zero { next := next + m.length; }
      first := m.End();
    }
    r := Some(q);
  }

  datatype Plan = Plan(mappings: seq<Mapping>, payloadBytes: nat, indexOffset: nat, trailerOffset: nat, fileBytes: nat)

  datatype Outcome = Done(plan: Plan) | Invalid | TooBig

  /** The size of the file for a plan. */
  function FileBytes(p: seq<Mapping>): nat { PadBytes(PhysicalEnd(p) * SECTOR) + PadBytes(16 * |p|) + SPACE }

  predicate Admissible(size: nat) { size > 0 && size % SECTOR == 0 && size / SECTOR <= MAX_OFFSET }

  /** The mapping loop of make_plan. */
  method BuildMappings(own: seq<Mapping>, sectors: nat) returns (r: Option<seq<Mapping>>, physical: nat)
    requires Exact(own, sectors)
    ensures r.Some? ==> PlanTo(r.value, own, sectors) && |r.value| <= MAX_INDEX
    ensures r.Some? ==> physical == DATA_START + DataLength(own, |own|) == PhysicalEnd(r.value)
    ensures r.None? ==> forall p :: PlanTo(p, own, sectors) ==> |p| > MAX_INDEX
  {
    ExactIndex(own, sectors);
    var q: seq<Mapping> := [];
    physical := DATA_START;
    var i: nat := 0;
    ghost var y: nat := 0;
    while i < |own|
      invariant i <= |own| && y == (if i == 0 then 0 else own[i - 1].End()) && PlanTo(q, own, y) && |q| <= MAX_INDEX
      invariant physical == DATA_START + DataLength(own, i) == PhysicalEnd(q)
    {
      GapBefore(own, i);
      SkipGap(q, own, y, own[i].offset);
      var last, next := Run(own, i);
      var step;
      step, physical := Emit(q, own[i].offset, last, own[i].zeroed, physical, own);
      if step.None? {
        TooManyFor(own, last, sectors);
        return None, physical;
      }
      q, i, y := step.value, next, last;
    }
    NothingAfter(own, y, sectors);
    SkipGap(q, own, y, sectors);
    r := Some(q);
  }

  lemma {:induction false} GapBefore(own: seq<Mapping>, i: nat)
    requires Index(own) && i < |own|
    ensures var y := if i == 0 then 0 else own[i - 1].End();
      y <= own[i].offset && forall s: int :: y <= s < own[i].offset ==> KindAt(own, s) == Absent
  {
    var y := if i == 0 then 0 else own[i - 1].End();
    forall k | 0 <= k < i
      ensures own[k].End() <= y
    {
      assert k < i - 1 ==> own[k].End() <= own[i - 1].offset;
    }
    forall s: int | y <= s < own[i].offset
      ensures KindAt(own, s) == Absent
    {
      GapIsHole(own, i, s);
    }
  }

  lemma {:induction false} NothingAfter(own: seq<Mapping>, y: nat, sectors: nat)
    requires Index(own) && Within(own, 0, sectors) && y == if |own| == 0 then 0 else own[|own| - 1].End()
    ensures y <= sectors && forall s: int :: y <= s < sectors ==> KindAt(own, s) == Absent
  {
    forall k | 0 <= k < |own|
      ensures own[k].End() <= y
    {
      assert k < |own| - 1 ==> own[k].End() <= own[|own| - 1].offset;
    }
    forall s: int | y <= s < sectors
      ensures KindAt(own, s) == Absent
    {
      GapIsHole(own, |own|, s);
    }
  }

  lemma {:induction false} PrefixOrWhole(p: seq<Mapping>, q: seq<Mapping>)
    requires |q| <= |p| && p[..|q|] == q
    ensures p == q || |p| > |q|
  {
    if |p| == |q| { assert p == p[..|q|]; }
  }

  lemma {:induction false} TooManyFor(own: seq<Mapping>, last: nat, sectors: nat)
    requires last <= sectors
    requires exists q, y: nat :: PlanTo(q, own, y) && |q| == MAX_INDEX && y < last && KindAt(own, y) != Absent
    ensures forall p :: PlanTo(p, own, sectors) ==> |p| > MAX_INDEX
  {
    var q, y: nat :| PlanTo(q, own, y) && |q| == MAX_INDEX && y < last && KindAt(own, y) != Absent;
    forall p | PlanTo(p, own, sectors)
      ensures |p| > MAX_INDEX
    {
      PrefixSame(q, p, own, y, sectors, |q|);
      assert q[..|q|] == q;
      PrefixOrWhole(p, q);
      assert KindAt(p, y) == KindAt(own, y);
    }
  }

  /** make_plan. The result is the normal form of the ownership, holds exactly its
      DATA sectors, and describes a file the layer reader opens. */
  method MakePlan(virtualSize: nat, own: seq<Mapping>) returns (r: Outcome)
    ensures r == Invalid <==> !Admissible(virtualSize) || (|own| <= MAX_INDEX && !Exact(own, virtualSize / SECTOR))
    ensures r == TooBig && |own| <= MAX_INDEX ==>
              forall p :: PlanTo(p, own, virtualSize / SECTOR) ==>
                        |p| > MAX_INDEX || FileBytes(p) > MAX_FILE_SECTORS * SECTOR + 511
    ensures r.Done? ==> PlanTo(r.plan.mappings, own, virtualSize / SECTOR) && |r.plan.mappings| <= MAX_INDEX
    ensures r.Done? ==> r.plan.payloadBytes == SECTOR * DataLength(own, |own|)
    ensures r.Done? ==> r.plan.fileBytes <= MAX_FILE_SECTORS * SECTOR + 511
    ensures r.Done? ==> forall out: seq<Block> :: |out| == DATA_START + DataLength(own, |own|) ==>
                          var f := Sealed(r.plan.mappings, out, virtualSize / SECTOR);
                          && LsmtFile.Opens(f) && f.bytes == r.plan.fileBytes
                          && f.trailer.indexOffset == r.plan.indexOffset
  {
    if !Admissible(virtualSize) { return Invalid; }
    if |own| > MAX_INDEX { return TooBig; }
    var sectors := virtualSize / SECTOR;
    var ok := CheckExact(own, sectors);
    if !ok { return Invalid; }
    var q, physical := BuildMappings(own, sectors);
    if q.None? { return TooBig; }
    var indexOffset := PadBytes(physical * SECTOR);
    var trailerOffset := indexOffset + PadBytes(16 * |q.value|);
    if trailerOffset + SPACE > MAX_FILE_SECTORS * SECTOR + 511 {
      forall p | PlanTo(p, own, sectors)
        ensures p == q.value
      {
        FragmentationFree(own, p, own, q.value, sectors);
      }
      return TooBig;
    }
    r := Done(Plan(q.value, (physical - DATA_START) * SECTOR, indexOffset, trailerOffset, trailerOffset + SPACE));
    forall out: seq<Block> | |out| == physical
      ensures var f := Sealed(q.value, out, sectors);
      LsmtFile.Opens(f) && f.bytes == trailerOffset + SPACE && f.trailer.indexOffset == indexOffset
    {
      PlanFits(q.value, own, sectors);
      SealedOpens(q.value, out, sectors);
      PadAgrees(physical);
    }
  }

  lemma {:induction false} PadAgrees(x: nat)
    ensures PadSectors(x) * SECTOR == PadBytes(x * SECTOR)
  {
  }

  lemma {:induction false} PlanFits(q: seq<Mapping>, own: seq<Mapping>, sectors: nat)
    requires PlanTo(q, own, sectors)
    ensures SegsFit(q, sectors, PhysicalEnd(q), PhysicalEnd(q))
  {
    forall i | 0 <= i < |q|
      ensures Fits(q[i], PhysicalEnd(q), PhysicalEnd(q))
    {
      PackedUpTo(q, i, |q| - 1);
      PackedUpTo(q, 0, i);
    }
  }

  lemma {:induction false} PackedUpTo(q: seq<Mapping>, i: nat, n: nat)
    requires Packs(q) && i <= n < |q|
    ensures q[i].moffset <= q[n].moffset && q[i].Mend() <= q[n].Mend()
    decreases n
  {
    if i < n { PackedUpTo(q, i, n - 1); }
  }

  // ----- write_delta ------------------------------------------------------------------

  /** Sector s of a DATA mapping was copied to its place. */
  predicate SectorCopied(m: Mapping, s: int, out: seq<Block>, source: seq<Block>) {
    !m.zeroed && m.Covers(s) ==>
      m.moffset + (s - m.offset) < |out| && s < |source| && out[m.moffset + (s - m.offset)] == source[s]
  }

  /** The payload of the first n mappings is in place. */
  ghost predicate Copied(q: seq<Mapping>, n: nat, out: seq<Block>, source: seq<Block>)
    requires n <= |q|
  {
    && |out| == (if n == 0 then DATA_START else q[n - 1].Mend())
    && forall k, s: int :: 0 <= k < n ==> SectorCopied(q[k], s, out, source)
  }

  datatype Delta = Refused | Failed | Delta(payload: seq<Block>)

  /** All DATA of the plan lies inside the source. */
  predicate Sourced(q: seq<Mapping>, size: nat) {
    forall i :: 0 <= i < |q| && !q[i].zeroed ==> q[i].End() <= size
  }

  lemma {:induction false} SourcedExactly(q: seq<Mapping>, own: seq<Mapping>, sectors: nat, size: nat)
    requires PlanTo(q, own, sectors)
    ensures Sourced(q, size) <==> forall s: int :: 0 <= s < sectors && KindAt(own, s) == Payload ==> s < size
  {
    forall s: int | 0 <= s < sectors && KindAt(own, s) == Payload && Sourced(q, size)
      ensures s < size
    {
      assert KindAt(q, s) == KindAt(own, s);
      var k := ResolveWitness(q, s);
    }
    if i :| 0 <= i < |q| && !q[i].zeroed && q[i].End() > size {
      var s := q[i].End() - 1;
      ResolveAt(q, i, s);
      assert KindAt(q, s) == KindAt(own, s) == Payload;
    }
  }

  /** write_delta: copies the DATA sectors of the plan out of the sparse source, which
      keeps every sector at its own offset. Refused before anything is written
      exactly when the source is larger than the volume or DATA reaches past it. */
  method WriteDelta(q: seq<Mapping>, source: seq<Block>, sectors: nat, ghost own: seq<Mapping>) returns (r: Delta)
    requires PlanTo(q, own, sectors)
    ensures r.Refused? <==>
            || |source| > sectors
            || exists s: int :: 0 <= s < sectors && KindAt(own, s) == Payload && s >= |source|
    ensures r.Delta? ==> |r.payload| == PhysicalEnd(q)
    ensures r.Delta? ==> forall s: int :: 0 <= s < sectors ==>
              Held(Resolve(q, s), r.payload) == if KindAt(own, s) == Payload then Peek(source, s) else ZERO_BLOCK
  {
    SourcedExactly(q, own, sectors, |source|);
    if |source| > sectors || !Sourced(q, |source|) { return Refused; }
    var out := Zeros(DATA_START);
    var n: nat := 0;
    while n < |q|
      invariant n <= |q| && Copied(q, n, out, source)
    {
      var ok: bool := *;
      if !ok { return Failed; }
      if n > 0 { assert q[n].moffset == q[n - 1].Mend(); }
      ghost var before := out;
      if !q[n].zeroed { out := out + source[q[n].offset..q[n].End()]; }
      CopyMore(q, n, before, out, source);
      n := n + 1;
    }
    forall s: int | 0 <= s < sectors
      ensures Held(Resolve(q, s), out) == if KindAt(own, s) == Payload then Peek(source, s) else ZERO_BLOCK
    {
      assert KindAt(q, s) == KindAt(own, s);
      if KindAt(q, s) == Payload {
        var k := ResolveWitness(q, s);
        assert SectorCopied(q[k], s, out, source);
      }
    }
    r := Delta(out);
  }

  lemma {:induction false} CopyMore(q: seq<Mapping>, n: nat, before: seq<Block>, out: seq<Block>, source: seq<Block>)
    requires n < |q| && Copied(q, n, before, source) && q[n].moffset == |before|
    requires if q[n].zeroed then out == before
             else q[n].End() <= |source| && out == before + source[q[n].offset..q[n].End()]
    ensures Copied(q, n + 1, out, source)
  {
    forall k, s: int | 0 <= k < n + 1
      ensures SectorCopied(q[k], s, out, source)
    {
      if k < n { assert SectorCopied(q[k], s, before, source); }
    }
  }
}
