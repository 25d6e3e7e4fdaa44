/** Whole runs of an LSMT upper, and requests that fail before a reopen. */
module LsmtRun {
  import opened Segments
  import opened SectorArray
  import HybridReplay
  import opened LsmtReplay
  import opened LsmtJournal
  import opened LsmtLayer

  /** The volume as a plain sector array. */
  ghost function Contents(l: Layer): seq<Block>
    reads l
  {
    Image(l.segments, l.data, l.sectors)
  }

  lemma {:induction false} WroteIsSplice(l: seq<Mapping>, d: seq<Block>, l': seq<Mapping>, d': seq<Block>, n: nat,
                                         at: nat, blocks: seq<Block>)
    requires at + |blocks| <= n && AllWrote(l, d, l', d', at, blocks)
    ensures Image(l', d', n) == Splice(Image(l, d, n), at, blocks)
  {
    forall s: int
      ensures at <= s < at + |blocks| ==> ReadAt(l', d', s) == blocks[s - at]
      ensures !(at <= s < at + |blocks|) ==> ReadAt(l', d', s) == ReadAt(l, d, s)
    {
      assert Wrote(Resolve(l, s), d, Resolve(l', s), d', s, at, blocks);
    }
    ImageIsSplice(l, d, l', d', n, at, blocks);
  }

  lemma {:induction false} GrownReadsZero(l: seq<Mapping>, d: seq<Block>, n: nat, to: nat)
    requires Within(l, 0, n) && n <= to
    ensures Image(l, d, to) == Image(l, d, n) + Zeros(to - n)
  {
    forall s: int | n <= s < to
      ensures ReadAt(l, d, s) == ZERO_BLOCK
    {
      ResolveOutside(l, 0, n, s);
    }
  }

  /** One operation does to the layer what it does to the array. */
  method Perform(l: Layer, op: Op) returns (ok: bool)
    requires l.Valid() && !l.journalFailed
    modifies l
    ensures l.Valid()
    ensures ok ==> !l.journalFailed && Admits(old(Contents(l)), op) && Contents(l) == Step(old(Contents(l)), op)
    ensures l.since == old(l.since) || l.since == 0
  {
    var rc;
    match op {
      case Write(at, blocks) =>
        assert (SECTOR * at) / SECTOR == at && (SECTOR * |blocks|) / SECTOR == |blocks|;
        ghost var begun, wrote;
        rc, begun, wrote := l.Pwrite(blocks, SECTOR * |blocks|, SECTOR * at);
        if rc == Ok { WroteIsSplice(old(l.segments), old(l.data), l.segments, l.data, l.sectors, at, blocks); }
      case Discard(at, count) =>
        assert (SECTOR * at) / SECTOR == at && (SECTOR * count) / SECTOR == count;
        rc := l.Discard(SECTOR * at, SECTOR * count);
        if rc == Ok { WroteIsSplice(old(l.segments), old(l.data), l.segments, l.data, l.sectors, at, Zeros(count)); }
      case Compaction =>
        rc := l.Prepare();
      case Resize(to) =>
        rc := l.Grow(SECTOR * to);
        if rc == Ok { GrownReadsZero(l.segments, l.data, old(l.sectors), to); }
    }
    ok := rc == Ok;
  }

  /** A run on the layer refines the same run on a plain sector array. Stops at
      the first operation that does not succeed. */
  method Drive(l: Layer, ops: seq<Op>) returns (done: nat)
    requires l.Valid() && !l.journalFailed
    modifies l
    ensures done <= |ops| && l.Valid()
    ensures done == |ops| ==> !l.journalFailed && RunOf(old(Contents(l)), ops) == Some(Contents(l))
    ensures l.since == old(l.since) || l.since == 0
  {
    done := 0;
    while done < |ops|
      invariant done <= |ops| && l.Valid() && !l.journalFailed && (l.since == old(l.since) || l.since == 0)
      invariant RunOf(old(Contents(l)), ops[..done]) == Some(Contents(l))
    {
      var ok := Perform(l, ops[done]);
      if !ok { return; }
      assert ops[..done + 1][..done] == ops[..done];
      done := done + 1;
    }
    assert ops[..done] == ops;
  }

  /** Cutting the index file anywhere: after any run of operations, ended by a
      failed one or not, on a layer whose log reopens from its start, every byte
      count of the index file reopens, to exactly its complete records. */
  method DriveThenReopen(l: Layer, ops: seq<Op>, bytes: nat, capacity: nat) returns (done: nat, again: Option<Layer>)
    requires l.Valid() && !l.journalFailed && l.since == 0
    modifies l
    ensures done <= |ops| && l.Valid() && l.since == 0
    ensures again.Some? <==> CompleteRecords(bytes) <= |l.log| && l.sectors <= capacity <= MAX_OFFSET
    ensures again.Some? ==> again.value.Valid() && !again.value.journalFailed && again.value.since == 0
    ensures again.Some? ==> again.value.data == l.data && again.value.sectors == capacity
    ensures again.Some? ==>
              forall s: int :: Resolve(again.value.segments, s) == Meaning(l.log[..CompleteRecords(bytes)], s)
    ensures again.Some? && done == |ops| && CompleteRecords(bytes) == |l.log| && capacity == l.sectors ==>
              RunOf(old(Contents(l)), ops) == Some(Contents(again.value))
  {
    done := Drive(l, ops);
    again := None;
    if CompleteRecords(bytes) <= |l.log| && l.sectors <= capacity <= MAX_OFFSET {
      again := l.Reopen(bytes, capacity);
      if CompleteRecords(bytes) == |l.log| && capacity == l.sectors && done == |ops| {
        assert l.log[..|l.log|] == l.log;
        assert forall s: int :: Resolve(again.value.segments, s) == Resolve(l.segments, s);
        assert Contents(again.value) == Contents(l);
      }
    }
  }

  /** What one request's records say over the log they follow. */
  lemma {:induction false} RecordsMean(begun: seq<Mapping>, w: seq<Mapping>, lo: nat, hi: nat, s: int)
    requires Records(w, lo, hi)
    ensures (forall i :: 0 <= i < |w| ==> !w[i].Covers(s)) ==> Meaning(begun + w, s) == Meaning(begun, s)
    ensures forall i :: 0 <= i < |w| && w[i].Covers(s) ==> lo <= s < hi && Meaning(begun + w, s) == w[i].At(s)
  {
    if |w| == 0 {
      assert begun + w == begun;
    } else {
      var rest, m := w[..|w| - 1], w[|w| - 1];
      assert Record(m, lo, hi);
      RecordsMean(begun, rest, lo, hi, s);
      assert (begun + rest) + [m] == begun + w;
      MeaningAppend(begun + rest, m, s);
    }
  }

  /** A request cut among its own records: every sector is as it was or as the whole
      log has it. */
  lemma {:induction false} CutMeans(begun: seq<Mapping>, w: seq<Mapping>, lo: nat, hi: nat, k: nat, s: int)
    requires Records(w, lo, hi) && k <= |w|
    ensures Meaning(begun + w[..k], s) == Meaning(begun, s) || Meaning(begun + w[..k], s) == Meaning(begun + w, s)
    ensures !(lo <= s < hi) ==> Meaning(begun + w, s) == Meaning(begun, s)
  {
    RecordsMean(begun, w, lo, hi, s);
    RecordsMean(begun, w[..k], lo, hi, s);
    if i :| 0 <= i < k && w[..k][i].Covers(s) { assert w[i].Covers(s); }
  }

  lemma {:induction false} CutPartly(segs: seq<Mapping>, before: seq<Block>, begun: seq<Mapping>, w: seq<Mapping>,
                                     data: seq<Block>, lo: nat, blocks: seq<Block>, k: nat)
    requires Agree(begun, segs) && Records(w, lo, lo + |blocks|) && k <= |w|
    requires LogPartly(segs, before, begun + w, data, lo, blocks)
    ensures LogPartly(segs, before, begun + w[..k], data, lo, blocks)
  {
    forall s: int
      ensures Partly(Resolve(segs, s), before, Meaning(begun + w[..k], s), data, s, lo, blocks)
    {
      CutMeans(begun, w, lo, lo + |blocks|, k, s);
      assert Partly(Resolve(segs, s), before, Meaning(begun + w, s), data, s, lo, blocks);
    }
  }

  lemma {:induction false} WroteIsPartly(segs: seq<Mapping>, before: seq<Block>, now: seq<Mapping>, log: seq<Mapping>,
                                         data: seq<Block>, lo: nat, blocks: seq<Block>)
    requires AllWrote(segs, before, now, data, lo, blocks) && Agree(log, now)
    ensures LogPartly(segs, before, log, data, lo, blocks)
  {
    forall s: int
      ensures Partly(Resolve(segs, s), before, Meaning(log, s), data, s, lo, blocks)
    {
      assert Wrote(Resolve(segs, s), before, Resolve(now, s), data, s, lo, blocks);
    }
  }

  /** Ending the process after a write, finished or not, and opening the files again
      with the index cut at any byte. Where the log reopens from, the cut is accepted
      and exactly the complete records come back. Cut where or after the request
      began, every sector outside it is where and what it was, and inside each is
      old, new, or torn only where its own payload was being rewritten; uncut, a
      finished request is all there. */
  method WriteThenReopen(l: Layer, buf: seq<Block>, count: nat, offset: nat, bytes: nat)
    returns (rc: Code, again: Option<Layer>, ghost begun: nat)
    requires l.Valid() && !l.journalFailed && (count % SECTOR == 0 ==> |buf| == count / SECTOR)
    modifies l
    ensures l.Valid() && (l.since == old(l.since) || l.since == 0) && l.since <= begun <= |l.log|
    ensures again.Some? <==>
            && CompleteRecords(bytes) <= |l.log|
            && !HybridReplay.Alias(LiveIndex(l.log[..CompleteRecords(bytes)]))
    ensures l.since <= CompleteRecords(bytes) <= |l.log| ==> again.Some?
    ensures again.Some? ==> again.value.sectors == l.sectors
    ensures again.Some? ==> again.value.Valid() && !again.value.journalFailed
    ensures again.Some? ==>
              forall s: int :: Resolve(again.value.segments, s) == Meaning(l.log[..CompleteRecords(bytes)], s)
    ensures again.Some? && rc in {Ok, TooBig, IoError} && begun <= CompleteRecords(bytes) ==>
              AllPartly(old(l.segments), old(l.data), again.value.segments, again.value.data, offset / SECTOR, buf)
    ensures again.Some? && rc == Ok && CompleteRecords(bytes) == |l.log| ==>
              AllWrote(old(l.segments), old(l.data), again.value.segments, again.value.data, offset / SECTOR, buf)
    ensures rc in {Invalid, ReadOnly} ==> l.log == old(l.log) && l.data == old(l.data)
  {
    hide Meaning;
    hide LiveIndex;
    hide Journal;
    hide Records;
    ghost var start, wrote;
    rc, start, wrote := l.Pwrite(buf, count, offset);
    begun := |start|;
    again := None;
    var n := CompleteRecords(bytes);
    if n <= |l.log| {
      again := l.Reopen(bytes, l.sectors);
      if again.Some? && rc in {Ok, TooBig, IoError} && begun <= n {
        if rc == Ok { WroteIsPartly(old(l.segments), old(l.data), l.segments, l.log, l.data, offset / SECTOR, buf); }
        CutShows(old(l.segments), old(l.data), start, wrote, l.data, offset / SECTOR, buf, n, again.value.segments);
      }
      if again.Some? && rc == Ok && n == |l.log| {
        WholeShows(old(l.segments), old(l.data), l.segments, l.log, l.data, offset / SECTOR, buf, again.value.segments);
      }
    }
  }

  lemma {:induction false} CutShows(segs: seq<Mapping>, before: seq<Block>, start: seq<Mapping>, w: seq<Mapping>,
                                    data: seq<Block>, lo: nat, blocks: seq<Block>, n: nat, again: seq<Mapping>)
    requires Agree(start, segs) && Records(w, lo, lo + |blocks|) && |start| <= n <= |start + w|
    requires LogPartly(segs, before, start + w, data, lo, blocks)
    requires forall s: int :: Resolve(again, s) == Meaning((start + w)[..n], s)
    ensures AllPartly(segs, before, again, data, lo, blocks)
  {
    CutPartly(segs, before, start, w, data, lo, blocks, n - |start|);
    assert (start + w)[..n] == start + w[..n - |start|];
  }

  lemma {:induction false} WholeShows(segs: seq<Mapping>, before: seq<Block>, now: seq<Mapping>, log: seq<Mapping>,
                                      data: seq<Block>, lo: nat, blocks: seq<Block>, again: seq<Mapping>)
    requires AllWrote(segs, before, now, data, lo, blocks) && Agree(log, now)
    requires forall s: int :: Resolve(again, s) == Meaning(log[..|log|], s)
    ensures AllWrote(segs, before, again, data, lo, blocks)
  {
    assert log[..|log|] == log;
    assert forall s: int :: Resolve(again, s) == Resolve(now, s);
  }
}
