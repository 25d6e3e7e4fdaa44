/** A merged view whose writable top is an LSMT upper, end to end. */
module MergedUpper {
  import opened Segments
  import opened SectorArray
  import opened LayerMerge
  import MergedRead
  import opened MergedWritable
  import opened LsmtLayer

  /** What a sector of the whole stack holds. */
  function Seen(top: seq<Mapping>, data: seq<Block>, lowers: seq<seq<Mapping>>, payloads: seq<seq<Block>>,
                s: int): Block {
    MergedRead.Content(Merged([top] + lowers, 0, s), [data] + payloads)
  }

  /** The top hides the lowers where it covers a sector; elsewhere its payload
      does not matter. */
  lemma {:induction false} SeenThroughTop(top: seq<Mapping>, data: seq<Block>, lowers: seq<seq<Mapping>>,
                                          payloads: seq<seq<Block>>, s: int)
    ensures Resolve(top, s) != Hole ==> Seen(top, data, lowers, payloads, s) == Held(Resolve(top, s), data)
    ensures Resolve(top, s) == Hole ==> Merged([top] + lowers, 0, s) == Merged([top] + lowers, 1, s)
  {
    assert ([top] + lowers)[0] == top && ([data] + payloads)[0] == data;
  }

  lemma {:induction false} BelowTop(stack: seq<seq<Mapping>>, level: nat, s: int)
    requires level >= 1
    ensures Merged(stack, level, s) == Hole || Merged(stack, level, s).tag >= level
    decreases |stack| - level
  {
    if level < |stack| { BelowTop(stack, level + 1, s); }
  }

  lemma {:induction false} SeenSame(a: seq<Mapping>, d: seq<Block>, b: seq<Mapping>, e: seq<Block>,
                                    lowers: seq<seq<Mapping>>, payloads: seq<seq<Block>>, s: int)
    requires Resolve(b, s) == Resolve(a, s) && Held(Resolve(b, s), e) == Held(Resolve(a, s), d)
    ensures Seen(b, e, lowers, payloads, s) == Seen(a, d, lowers, payloads, s)
  {
    SeenThroughTop(a, d, lowers, payloads, s);
    SeenThroughTop(b, e, lowers, payloads, s);
    if Resolve(a, s) == Hole {
      LowersUnchanged(a, b, lowers, 1, s);
      BelowTop([a] + lowers, 1, s);
    }
  }

  /** Every sector of the stack holds what `index` and the payloads say. */
  ghost predicate Shows(index: seq<Mapping>, top: seq<Mapping>, data: seq<Block>, lowers: seq<seq<Mapping>>,
                        payloads: seq<seq<Block>>) {
    forall s: int :: 0 <= s < MAX_OFFSET ==>
              MergedRead.Content(Resolve(index, s), [data] + payloads) == Seen(top, data, lowers, payloads, s)
  }

  /** No sector outside [lo, lo + n) shows anything else. */
  ghost predicate SameOutside(a: seq<Mapping>, d: seq<Block>, b: seq<Mapping>, e: seq<Block>,
                              lowers: seq<seq<Mapping>>, payloads: seq<seq<Block>>, lo: nat, n: nat) {
    forall s: int :: !(lo <= s < lo + n) ==> Seen(b, e, lowers, payloads, s) == Seen(a, d, lowers, payloads, s)
  }

  /** pwrite of the merged view. When it returns success the snapshot shows the
      request's blocks over what the stack held before; when it does not, no
      sector outside the request changed, and a snapshot that is kept is right. */
  method WriteThrough(view: View, layer: Layer, buf: seq<Block>, count: nat, offset: nat,
                      ghost payloads: seq<seq<Block>>)
    returns (ok: bool)
    requires view.Valid() && layer.Valid() && view.local && view.top == layer.segments
    requires count % SECTOR == 0 ==> |buf| == count / SECTOR
    modifies view, layer
    ensures view.Valid() && layer.Valid() && view.top == layer.segments
    ensures view.index.Some? ==> Shows(view.index.value, layer.segments, layer.data, view.lowers, payloads)
    ensures ok ==> view.index.Some?
    ensures ok ==> forall s: int :: offset / SECTOR <= s < offset / SECTOR + |buf| ==>
                     Seen(layer.segments, layer.data, view.lowers, payloads, s) == buf[s - offset / SECTOR]
    ensures SameOutside(old(layer.segments), old(layer.data), layer.segments, layer.data,
                        view.lowers, payloads, offset / SECTOR, |buf|)
  {
    var lo, hi := offset / SECTOR, offset / SECTOR + count / SECTOR;
    if offset % SECTOR != 0 || count % SECTOR != 0 || hi > MAX_OFFSET {
      if view.index.Some? { CurrentShows(view.index.value, layer.segments, layer.data, view.lowers, payloads); }
      return false;
    }
    hide Agree;
    hide LogPartly;
    hide Records;
    hide Seen;
    ghost var segs, before := layer.segments, layer.data;
    var prior := layer.segments;
    var rc;
    ghost var begun, wrote;
    rc, begun, wrote := layer.Pwrite(buf, count, offset);
    var sameRevision: bool := *;
    var out := Outcome(layer.segments, rc == Ok, rc != Ok, sameRevision && prior == layer.segments);
    forall s: int
      ensures !(lo <= s < hi) ==> Resolve(layer.segments, s) == Resolve(segs, s)
      ensures !(lo <= s < hi) ==> Held(Resolve(layer.segments, s), layer.data) == Held(Resolve(segs, s), before)
    {
      if rc == Ok { assert Wrote(Resolve(segs, s), before, Resolve(layer.segments, s), layer.data, s, lo, buf); }
      else if layer.segments != segs || layer.data != before {
        assert Partly(Resolve(segs, s), before, Resolve(layer.segments, s), layer.data, s, lo, buf);
      }
    }
    ok := view.Mutate(out, lo, hi);
    SeenAfter(segs, before, layer.segments, layer.data, view.lowers, payloads, lo, hi, rc == Ok, buf);
    if view.index.Some? { CurrentShows(view.index.value, layer.segments, layer.data, view.lowers, payloads); }
  }

  /** discard of the merged view. On success the request reads as zeroes whatever
      the lowers hold there; whether it succeeds or not, no sector outside the
      request changes. */
  method DiscardThrough(view: View, layer: Layer, offset: nat, count: nat, ghost payloads: seq<seq<Block>>)
    returns (ok: bool)
    requires view.Valid() && layer.Valid() && view.local && view.top == layer.segments
    modifies view, layer
    ensures view.Valid() && layer.Valid() && view.top == layer.segments && layer.data == old(layer.data)
    ensures view.index.Some? ==> Shows(view.index.value, layer.segments, layer.data, view.lowers, payloads)
    ensures ok ==> view.index.Some?
    ensures ok ==> forall s: int :: offset / SECTOR <= s < offset / SECTOR + count / SECTOR ==>
                     Seen(layer.segments, layer.data, view.lowers, payloads, s) == ZERO_BLOCK
    ensures SameOutside(old(layer.segments), layer.data, layer.segments, layer.data,
                        view.lowers, payloads, offset / SECTOR, count / SECTOR)
  {
    var lo, hi := offset / SECTOR, offset / SECTOR + count / SECTOR;
    if offset % SECTOR != 0 || count % SECTOR != 0 || hi > MAX_OFFSET {
      if view.index.Some? { CurrentShows(view.index.value, layer.segments, layer.data, view.lowers, payloads); }
      return false;
    }
    ghost var segs := layer.segments;
    var rc := layer.Discard(offset, count);
    forall s: int
      ensures !(lo <= s < hi) ==> Resolve(layer.segments, s) == Resolve(segs, s)
    {
      if rc == Ok {
        assert Wrote(Resolve(segs, s), layer.data, Resolve(layer.segments, s), layer.data, s, lo, Zeros(hi - lo));
      }
    }
    ok := view.Mutate(Outcome(layer.segments, rc == Ok, rc != Ok, false), lo, hi);
    SeenAfter(segs, layer.data, layer.segments, layer.data, view.lowers, payloads, lo, hi, rc == Ok, Zeros(hi - lo));
    if view.index.Some? { CurrentShows(view.index.value, layer.segments, layer.data, view.lowers, payloads); }
  }

  /** pread of the merged view: an absent snapshot fails every request that reaches
      a sector; a present one serves each sector as the whole stack holds it, or
      zero behind a fault of its own piece. */
  method ReadThrough(view: View, layer: Layer, payloads: seq<seq<Block>>, faults: set<(nat, nat)>, vsize: nat,
                     count: nat, offset: nat)
    returns (r: MergedRead.ReadResult)
    requires view.Valid() && view.top == layer.segments && vsize <= MAX_OFFSET * SECTOR
    ensures r.Filled? <==>
            && MergedRead.Aligned(count, offset)
            && (|| offset >= vsize || count == 0
                || (view.index.Some? && !Fails(view.index.value, faults, vsize, count, offset)))
    ensures r.Filled? ==> r.bytes == (if offset >= vsize then 0 else Min(count, vsize - offset))
    ensures r.Filled? && view.index.Some? ==> Reads(r.blocks, view, layer, payloads, faults, vsize, count, offset)
    ensures r.Filled? && view.index.None? ==> r.blocks == []
  {
    if !MergedRead.Aligned(count, offset) { return MergedRead.ReadError; }
    if offset >= vsize || count == 0 { return MergedRead.Filled(0, []); }
    if view.index.None? { return MergedRead.ReadError; }
    var index := view.index.value;
    var clamped := Min(count, vsize - offset);
    var start, end := offset / SECTOR, (offset + clamped) / SECTOR;
    var ok, out := MergedRead.FillRange(index, [layer.data] + payloads, faults, UpperBound(index, start), start, end);
    if !ok { return MergedRead.ReadError; }
    MergedRead.ServedStack(out, index, [layer.segments] + view.lowers, [layer.data] + payloads, faults, start, end);
    r := MergedRead.Filled(clamped, out);
  }

  ghost predicate Fails(index: seq<Mapping>, faults: set<(nat, nat)>, vsize: nat, count: nat, offset: nat) {
    var (start, end) := MergedRead.Reach(vsize, count, offset); MergedRead.Refuses(index, faults, start, end)
  }

  /** Every sector of the request as the stack holds it, or zero behind a fault. */
  ghost predicate Reads(out: seq<Block>, view: View, layer: Layer, payloads: seq<seq<Block>>, faults: set<(nat, nat)>,
                        vsize: nat, count: nat, offset: nat)
    requires view.index.Some?
    reads view, layer
  {
    var (start, end) := MergedRead.Reach(vsize, count, offset);
    && |out| == end - start
    && forall i: nat :: i < |out| ==>
         if MergedRead.Shadowed(view.index.value, faults, start, start + i) then out[i] == ZERO_BLOCK
         else out[i] == Seen(layer.segments, layer.data, view.lowers, payloads, start + i)
  }

  lemma {:induction false} CurrentShows(index: seq<Mapping>, top: seq<Mapping>, data: seq<Block>,
                                        lowers: seq<seq<Mapping>>, payloads: seq<seq<Block>>)
    requires Current(index, top, lowers)
    ensures Shows(index, top, data, lowers, payloads)
  {
  }

  lemma {:induction false} SeenAfter(segs: seq<Mapping>, before: seq<Block>, segs': seq<Mapping>, after: seq<Block>,
                                     lowers: seq<seq<Mapping>>, payloads: seq<seq<Block>>,
                                     lo: nat, hi: nat, full: bool, buf: seq<Block>)
    requires |buf| == hi - lo
    requires full ==> AllWrote(segs, before, segs', after, lo, buf)
    requires forall s: int :: !(lo <= s < hi) ==>
              Resolve(segs', s) == Resolve(segs, s) && Held(Resolve(segs', s), after) == Held(Resolve(segs, s), before)
    ensures forall s: int :: !(lo <= s < hi) ==>
              Seen(segs', after, lowers, payloads, s) == Seen(segs, before, lowers, payloads, s)
    ensures full ==> forall s: int :: lo <= s < hi ==> Seen(segs', after, lowers, payloads, s) == buf[s - lo]
  {
    forall s: int
      ensures !(lo <= s < hi) ==> Seen(segs', after, lowers, payloads, s) == Seen(segs, before, lowers, payloads, s)
      ensures full && lo <= s < hi ==> Seen(segs', after, lowers, payloads, s) == buf[s - lo]
    {
      if lo <= s < hi {
        SeenThroughTop(segs', after, lowers, payloads, s);
        if full { assert Wrote(Resolve(segs, s), before, Resolve(segs', s), after, s, lo, buf); }
      } else {
        SeenSame(segs, before, segs', after, lowers, payloads, s);
      }
    }
  }
}
