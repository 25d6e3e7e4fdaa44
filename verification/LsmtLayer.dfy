/** The LSMT writable upper: payload before ownership, ownership journalled
    before it becomes visible, and failures that stay inside the request. */
module LsmtLayer {
  import opened Segments
  import opened SectorArray
  import HybridReplay
  import opened LsmtReplay
  import opened LsmtJournal
  import opened LsmtPlan
  import opened LsmtEdit

  datatype Code = Ok | Invalid | ReadOnly | TooBig | IoError

  /** What an admitted request may return. */
  predicate Attempted(rc: Code) { rc in {Ok, TooBig, IoError} }

  /** Segments and payload of a usable upper; `end` is where fresh payload goes. */
  ghost predicate Store(segs: seq<Mapping>, sectors: nat, size: nat, end: nat) {
    sectors <= MAX_OFFSET && DATA_START <= size <= end && SegsOk(segs, sectors, size) && DataInjective(segs)
  }

  /** The log pair: reopens wherever it is cut after `since`, and its admission
      partition is the one replay would have. */
  ghost predicate Pair(log: seq<Mapping>, since: nat, ranges: seq<Range>, poisoned: bool, sectors: nat, size: nat) {
    Journal(log, since, sectors, size) && (!poisoned ==> ranges == RangesOf(LiveIndex(log)))
  }

  /** The log says what the visible segments say. */
  ghost predicate Agree(log: seq<Mapping>, segs: seq<Mapping>) {
    forall s: int :: Meaning(log, s) == Resolve(segs, s)
  }

  /** Sector s after a finished request for `blocks` at `lo`: its block, or if
      outside the request the same payload in the same place. */
  predicate Wrote(was: Sector, before: seq<Block>, now: Sector, after: seq<Block>, s: int,
                  lo: nat, blocks: seq<Block>) {
    if lo <= s < lo + |blocks| then now != Hole && Held(now, after) == blocks[s - lo]
    else now == was && Held(now, after) == Held(was, before)
  }

  /** Sector s after an unfinished one: as after a finished one, or where it was,
      and then torn only if its own payload was being rewritten. */
  predicate Partly(was: Sector, before: seq<Block>, now: Sector, after: seq<Block>, s: int,
                   lo: nat, blocks: seq<Block>) {
    if lo <= s < lo + |blocks|
    then
      || (now == was && (Held(now, after) == Held(was, before) || was.Data?))
      || (now != Hole && Held(now, after) == blocks[s - lo])
    else now == was && Held(now, after) == Held(was, before)
  }

  lemma {:induction false} MeaningAppend(log: seq<Mapping>, m: Mapping, s: int)
    requires !Skipped(m) && Norm(m) == m
    ensures Meaning(log + [m], s) == if m.Covers(s) then m.At(s) else Meaning(log, s)
  {
    assert (log + [m])[..|log|] == log;
  }

  /** Writing a plan's payload changes only sectors of the request that own some. */
  lemma {:induction false} PlanSpares(segs: seq<Mapping>, plan: seq<Mapping>, before: seq<Block>, after: seq<Block>,
                                      lo: nat, hi: nat, end0: nat, end: nat, sectors: nat, s: int)
    requires PlanOk(plan, segs, lo, hi, end0, end) && SegsOk(segs, sectors, |before|) && DataInjective(segs)
    requires |before| <= end0
    requires Untouched(before, after, plan, |plan|) && forall i :: 0 <= i < |plan| ==> !plan[i].zeroed
    requires !(lo <= s < hi && Resolve(segs, s).Data?)
    ensures Held(Resolve(segs, s), after) == Held(Resolve(segs, s), before)
  {
    if Resolve(segs, s).Data? {
      var p := Resolve(segs, s).phys;
      forall k | 0 <= k < |plan|
        ensures !InExtent(plan[k], p)
      {
        PlanElsewhere(plan, segs, lo, hi, end0, end, sectors, |before|, s, k);
      }
      assert Apart(plan, |plan|, p);
    }
  }

  /** Records of one request: in order, inside [lo, hi), plain. */
  ghost predicate Records(l: seq<Mapping>, lo: nat, hi: nat) {
    Sorted(l) && forall i :: 0 <= i < |l| ==> Record(l[i], lo, hi)
  }

  predicate Record(m: Mapping, lo: nat, hi: nat) { lo <= m.offset && m.End() <= hi && !Skipped(m) && Norm(m) == m }

  lemma {:induction false} RecordsMore(log: seq<Mapping>, l: seq<Mapping>, lo: nat, m: Mapping)
    requires Records(l, lo, m.offset) && Record(m, lo, m.End())
    ensures Records(l + [m], lo, m.End()) && log + l + [m] == log + (l + [m])
  {
  }

  lemma {:induction false} RecordsThen(log: seq<Mapping>, a: seq<Mapping>, b: seq<Mapping>, lo: nat, mid: nat, hi: nat)
    requires lo <= mid <= hi && Records(a, lo, mid) && Records(b, mid, hi)
    ensures Records(a + b, lo, hi) && log + a + b == log + (a + b)
  {
  }

  lemma {:induction false} RecordsWider(l: seq<Mapping>, lo: nat, hi: nat, more: nat)
    requires Records(l, lo, hi) && hi <= more
    ensures Records(l, lo, more)
  {
  }

  class Layer {
    var sectors: nat
    var segments: seq<Mapping>
    var data: seq<Block>
    var dataEnd: nat
    var log: seq<Mapping>
    var ranges: seq<Range>
    var poisoned: bool
    var journalFailed: bool
    /** Sealed or checkpointed. */
    var closed: bool
    /** A published grow intent not yet rolled forward. */
    var pending: Option<nat>
    /** The payload file ends inside a sector: a failed append was cut short. */
    var ragged: bool
    ghost var since: nat

    ghost predicate Valid()
      reads this
    {
      && Store(segments, sectors, |data|, dataEnd)
      && Pair(log, since, ranges, poisoned && pending.None?, sectors, |data|)
      && (pending.Some? ==> poisoned && journalFailed && sectors <= pending.value <= MAX_OFFSET)
      && (!journalFailed ==> !poisoned) && (!journalFailed || pending.Some? ==> Agree(log, segments))
    }

    /** append: admission, then the record. A failed write may or may not have
        completed the record; nothing more is appended after it. */
    method Append(m: Mapping, ghost size: nat, ghost more: nat) returns (rc: Code)
      requires Pair(log, since, ranges, poisoned, sectors, size) && sectors <= MAX_OFFSET && size <= more
      requires ValidEntry(m, sectors, more) && Norm(m) == m && (m.zeroed || m.moffset >= size)
      modifies this`log, this`ranges, this`poisoned
      ensures Attempted(rc) && Pair(log, since, ranges, poisoned, sectors, more)
      ensures rc == Ok ==> log == old(log) + [m] && !poisoned
      ensures rc != Ok ==> log == old(log) || (poisoned && log == old(log) + [m])
      ensures old(poisoned) ==> rc == IoError && log == old(log)
      ensures rc == TooBig <==>
              && !old(poisoned)
              && (|old(log)| >= MAX_LOG_RECORDS || |Overlay(LsmtMode, LiveIndex(old(log)), m)| > MAX_INDEX)
      ensures poisoned <==> rc == IoError
    {
      JournalMore(log, since, sectors, size, sectors, more);
      if poisoned { return IoError; }
      if |log| >= MAX_LOG_RECORDS { return TooBig; }
      LiveSegsOk(log, sectors, size);
      var next := Admit(ranges, LiveIndex(log), m);
      if next.None? { return TooBig; }
      JournalAppend(log, since, m, sectors, size, more, size);
      var ok: bool := *;
      if !ok {
        poisoned := true;
        var landed: bool := *;
        if landed { log := log + [m]; }
        return IoError;
      }
      ranges := next.value;
      log := log + [m];
      rc := Ok;
    }

    /** compact: the visible segments become the log. Replaying them first fails
        exactly while the payload file is ragged. An error before the rename
        leaves the pair as it was. */
    method Compact() returns (rc: Code)
      requires Valid() && !journalFailed
      modifies this`log, this`ranges, this`since
      ensures Valid()
      ensures Attempted(rc) && (rc == TooBig ==> |segments| > MAX_INDEX)
      ensures rc == Ok ==> log == segments && since == 0
      ensures (log == old(log) && ranges == old(ranges) && since == old(since)) || (log == segments && since == 0)
      ensures ragged ==> rc != Ok && log == old(log) && ranges == old(ranges) && since == old(since)
    {
      if poisoned { return IoError; }
      if |segments| > MAX_INDEX { return TooBig; }
      if ragged { return IoError; }
      CompactJournal(segments, sectors, |data|);
      LiveOfSegments(segments, sectors, |data|);
      InjectiveNoAlias(segments);
      var replayed := ReplayLog(segments, sectors, |data|);
      var ok: bool := *;
      if !ok { return IoError; }
      log, ranges, since := segments, RangesOf(replayed.value), 0;
      ok := *;
      rc := if ok then Ok else IoError;
    }

    /** prepare_mutation: refuses after a journal failure; compacts a log much
        longer than the live segments. */
    method Prepare() returns (rc: Code)
      requires Valid()
      modifies this`log, this`ranges, this`since
      ensures Valid() && Attempted(rc)
      ensures rc == Ok ==> !journalFailed
      ensures journalFailed ==> rc == IoError
      ensures old(journalFailed) ==> log == old(log) && ranges == old(ranges) && since == old(since)
      ensures !journalFailed && (|old(log)| < 4096 || |old(log)| < 4 * |segments|) ==> rc == Ok && log == old(log)
      ensures ragged && |old(log)| >= 4096 && |old(log)| >= 4 * |segments| ==> rc != Ok && log == old(log)
      ensures since == old(since) || since == 0
    {
      if journalFailed { return IoError; }
      rc := Ok;
      if |log| >= 4096 && |log| >= 4 * |segments| { rc := Compact(); }
    }

    /** Journals the fresh parts of a plan in order. */
    method PublishParts(parts: seq<Part>, lo: nat, hi: nat, ghost end0: nat, ghost end: nat, ghost size: nat)
      returns (rc: Code, ghost cur: nat, ghost wrote: seq<Mapping>)
      requires Pair(log, since, ranges, poisoned, sectors, size) && Agree(log, segments) && !journalFailed && !poisoned
      requires sectors <= MAX_OFFSET && DATA_START <= size <= end0 && size <= |data| && lo < hi <= sectors
      requires PlanOk(Maps(parts), segments, lo, hi, end0, end) && PartsOk(parts, segments, end0, end)
      requires ExtentsBelow(Maps(parts), |data|)
      modifies this`log, this`ranges, this`poisoned, this`journalFailed
      ensures Attempted(rc) && Pair(log, since, ranges, poisoned, sectors, |data|)
      ensures cur <= hi && Published(log, Maps(parts), segments, lo, cur)
      ensures rc == Ok ==> !journalFailed && !poisoned && cur == hi
      ensures rc != Ok ==> (journalFailed <==> poisoned || log != old(log)) && (!journalFailed ==> Agree(log, segments))
      ensures log == old(log) + wrote && Records(wrote, lo, cur)
    {
      hide Journal;
      hide Meaning;
      hide LiveIndex;
      var i: nat := 0;
      ghost var bound := size;
      ghost var plan := Maps(parts);
      rc, cur, wrote := Ok, lo, [];
      PlanTiles(plan, lo, hi, 0);
      var published := false;
      while i < |parts| && rc == Ok
        invariant i <= |parts| && size <= bound <= |data| && Pair(log, since, ranges, poisoned, sectors, bound)
        invariant lo <= cur <= hi && Published(log, plan, segments, lo, cur) && Attempted(rc)
        invariant rc == Ok ==> FreshFrom(parts, i, bound) && cur == (if i < |plan| then plan[i].offset else hi)
        invariant rc == Ok ==> !journalFailed && !poisoned && published == (wrote != [])
        invariant rc != Ok ==> (journalFailed <==> poisoned || log != old(log))
        invariant rc != Ok && !journalFailed ==> Agree(log, segments)
        invariant log == old(log) + wrote && Records(wrote, lo, cur)
      {
        PlanTiles(plan, lo, hi, i + 1);
        if parts[i].inplace {
          InPlaceStep(log, plan, i, segments, lo);
          RecordsWider(wrote, lo, cur, plan[i].End());
          cur := plan[i].End();
        } else {
          ghost var landed: bool;
          rc, landed := PublishPart(parts, i, lo, published, bound, end0, end);
          bound := plan[i].moffset + plan[i].length;
          if landed {
            RecordsMore(old(log), wrote, lo, plan[i]);
            wrote, cur := wrote + [plan[i]], plan[i].End();
          }
          published := true;
        }
        i := i + 1;
      }
      JournalMore(log, since, sectors, bound, sectors, |data|);
    }

    method PublishPart(parts: seq<Part>, i: nat, ghost lo: nat, published: bool, ghost bound: nat, ghost end0: nat,
                       ghost end: nat)
      returns (rc: Code, ghost landed: bool)
      requires i < |parts| && !parts[i].inplace && PartsOk(parts, segments, end0, end) && Index(Maps(parts))
      requires FreshFrom(parts, i, bound)
      requires sectors <= MAX_OFFSET && DATA_START <= bound && lo <= parts[i].m.offset && parts[i].m.End() <= sectors
      requires Pair(log, since, ranges, poisoned, sectors, bound)
      requires Published(log, Maps(parts), segments, lo, parts[i].m.offset)
      requires !journalFailed && !poisoned
      modifies this`log, this`ranges, this`poisoned, this`journalFailed
      ensures Attempted(rc) && Pair(log, since, ranges, poisoned, sectors, parts[i].m.moffset + parts[i].m.length)
      ensures log == if landed then old(log) + [parts[i].m] else old(log)
      ensures Published(log, Maps(parts), segments, lo, if landed then parts[i].m.End() else parts[i].m.offset)
      ensures FreshFrom(parts, i + 1, parts[i].m.moffset + parts[i].m.length)
      ensures Record(parts[i].m, lo, parts[i].m.End())
      ensures rc == Ok ==> landed && !journalFailed && !poisoned
      ensures rc != Ok ==> (journalFailed <==> poisoned || published) && (poisoned || !landed)
    {
      var m := parts[i].m;
      assert PartOk(parts[i], segments, end0, end);
      PublishStep(log, m, Maps(parts), i, segments, lo);
      rc := Append(m, bound, m.moffset + m.length);
      landed := log != old(log);
      if rc != Ok { journalFailed := poisoned || published; }
    }

    /** One piece of a write, at most as long as one record. */
    method WritePiece(lo: nat, blocks: seq<Block>) returns (rc: Code, ghost wrote: seq<Mapping>)
      requires Valid() && !journalFailed && 0 < |blocks| <= MAX_LENGTH && lo + |blocks| <= sectors
      modifies this`segments, this`data, this`dataEnd, this`ragged
      modifies this`log, this`ranges, this`poisoned, this`journalFailed
      ensures Valid() && Attempted(rc)
      ensures rc == Ok ==> !journalFailed && AllWrote(old(segments), old(data), segments, data, lo, blocks)
      ensures rc != Ok ==> segments == old(segments) && AllPartly(segments, old(data), segments, data, lo, blocks)
      ensures rc != Ok ==> (journalFailed <==> poisoned || log != old(log))
      ensures rc != Ok ==> LogPartly(segments, old(data), log, data, lo, blocks)
      ensures rc == Ok && !old(ragged) ==> !ragged
      ensures log == old(log) + wrote && Records(wrote, lo, lo + |blocks|)
    {
      ghost var before, end0 := data, dataEnd;
      wrote := [];
      var ok, parts;
      ok, parts, dataEnd, data := Stage(segments, data, dataEnd, lo, blocks, sectors);
      JournalMore(log, since, sectors, |before|, sectors, |data|);
      assert LogPartly(segments, before, log, data, lo, blocks);
      if !ok {
        ragged := *;
        return IoError, [];
      }
      rc := Ok;
      if AllInPlace(parts) {
        InPlaceDone(segments, parts, before, data, lo, blocks, end0, dataEnd);
      } else {
        ragged := false;
        rc, wrote := PublishPiece(parts, lo, blocks, before, end0);
      }
    }

    /** Journals the fresh parts and then shows all parts. */
    method PublishPiece(parts: seq<Part>, lo: nat, blocks: seq<Block>, ghost before: seq<Block>, ghost end0: nat)
      returns (rc: Code, ghost wrote: seq<Mapping>)
      requires pending.None? && Store(segments, sectors, |before|, end0)
      requires Pair(log, since, ranges, poisoned, sectors, |before|) && Agree(log, segments) && !journalFailed
      requires !poisoned
      requires 0 < |blocks| && lo + |blocks| <= sectors
      requires Staged(segments, parts, before, data, lo, blocks, end0, dataEnd) && Finished(parts, data, lo, blocks)
      modifies this`segments, this`log, this`ranges, this`poisoned, this`journalFailed
      ensures Valid() && Attempted(rc)
      ensures rc == Ok ==> !journalFailed && AllWrote(old(segments), before, segments, data, lo, blocks)
      ensures rc != Ok ==> segments == old(segments) && LogPartly(segments, before, log, data, lo, blocks)
      ensures rc != Ok ==> (journalFailed <==> poisoned || log != old(log))
      ensures log == old(log) + wrote && Records(wrote, lo, lo + |blocks|)
    {
      hide Journal;
      hide Meaning;
      hide LiveIndex;
      ghost var cur;
      rc, cur, wrote := PublishParts(parts, lo, lo + |blocks|, end0, dataEnd, |before|);
      RecordsWider(wrote, lo, cur, lo + |blocks|);
      PieceLogged(segments, log, Maps(parts), before, data, lo, blocks, cur);
      if rc == Ok { ShowPiece(parts, lo, blocks, before, end0); }
    }

    /** Shows the parts, all of them journalled. */
    method ShowPiece(parts: seq<Part>, lo: nat, blocks: seq<Block>, ghost before: seq<Block>, ghost end0: nat)
      requires Store(segments, sectors, |before|, end0) && 0 < |blocks| && lo + |blocks| <= sectors
      requires Staged(segments, parts, before, data, lo, blocks, end0, dataEnd) && Finished(parts, data, lo, blocks)
      requires Published(log, Maps(parts), segments, lo, lo + |blocks|)
      modifies this`segments
      ensures Store(segments, sectors, |data|, dataEnd) && Agree(log, segments)
      ensures AllWrote(old(segments), before, segments, data, lo, blocks)
    {
      hide Meaning;
      hide LiveIndex;
      var hi := lo + |blocks|;
      ghost var segs := segments;
      PartsSegOk(parts, segments, end0, dataEnd, |data|, sectors, |before|);
      segments := EditSegments(segments, Maps(parts), lo, hi, sectors, |data|);
      PieceDone(segs, segments, log, Maps(parts), before, data, lo, blocks);
      EditInjective(segs, segments, Maps(parts), lo, hi, end0, dataEnd, sectors, |before|);
    }

    ghost predicate Rejects(count: nat, offset: nat)
      reads this
    {
      offset % SECTOR != 0 || count % SECTOR != 0 || count == 0 || offset + count > SECTOR * sectors
    }

    /** pwrite. A request that is refused changes nothing. Otherwise no sector
        outside it changes contents or place, whether it succeeds or fails; and
        after a failure neither the visible sectors nor the ones a reopen would
        find hold anything but old or new contents, torn only in place. */
    method Pwrite(buf: seq<Block>, count: nat, offset: nat)
      returns (rc: Code, ghost begun: seq<Mapping>, ghost wrote: seq<Mapping>)
      requires Valid() && (count % SECTOR == 0 ==> |buf| == count / SECTOR)
      modifies this`segments, this`data, this`dataEnd, this`ragged
      modifies this`log, this`ranges, this`poisoned, this`journalFailed, this`since
      ensures Valid()
      ensures rc == ReadOnly <==> closed
      ensures rc == Invalid <==> !closed && Rejects(count, offset)
      ensures rc in {ReadOnly, Invalid} || old(journalFailed) ==> unchanged(this)
      ensures rc == Ok ==> !old(journalFailed) && !journalFailed
      ensures rc == Ok ==> AllWrote(old(segments), old(data), segments, data, offset / SECTOR, buf)
      ensures rc in {TooBig, IoError} && !old(journalFailed) ==>
                AllPartly(old(segments), old(data), segments, data, offset / SECTOR, buf)
      ensures rc in {TooBig, IoError} && !old(journalFailed) ==>
                LogPartly(old(segments), old(data), log, data, offset / SECTOR, buf)
      ensures log == begun + wrote && since <= |begun| && Records(wrote, offset / SECTOR, offset / SECTOR + |buf|)
      ensures !old(journalFailed) ==> Agree(begun, old(segments))
      ensures since == old(since) || since == 0
      ensures rc == Ok && !old(ragged) ==> !ragged
    {
      begun, wrote := log, [];
      if closed { return ReadOnly, begun, wrote; }
      if offset % SECTOR != 0 || count % SECTOR != 0 || count == 0 { return Invalid, begun, wrote; }
      if offset > SECTOR * sectors || count > SECTOR * sectors - offset { return Invalid, begun, wrote; }
      rc := Prepare();
      begun := log;
      if rc == Ok { rc, wrote := WritePieces(offset / SECTOR, buf); }
    }

    method WritePieces(lo: nat, buf: seq<Block>) returns (rc: Code, ghost wrote: seq<Mapping>)
      requires Valid() && !journalFailed && lo + |buf| <= sectors
      modifies this`segments, this`data, this`dataEnd, this`ragged
      modifies this`log, this`ranges, this`poisoned, this`journalFailed
      ensures Valid() && Attempted(rc)
      ensures rc == Ok ==> !journalFailed && AllWrote(old(segments), old(data), segments, data, lo, buf)
      ensures rc != Ok ==> AllPartly(old(segments), old(data), segments, data, lo, buf)
      ensures rc != Ok ==> LogPartly(old(segments), old(data), log, data, lo, buf)
      ensures rc == Ok && !old(ragged) ==> !ragged
      ensures log == old(log) + wrote && Records(wrote, lo, lo + |buf|)
    {
      hide Journal;
      hide Meaning;
      hide LiveIndex;
      rc, wrote := Ok, [];
      var done: nat := 0;
      while rc == Ok && done < |buf|
        invariant done <= |buf| && Valid() && Attempted(rc) && (rc == Ok && !old(ragged) ==> !ragged)
        invariant log == old(log) + wrote && Records(wrote, lo, lo + done)
        invariant rc == Ok ==> !journalFailed && AllWrote(old(segments), old(data), segments, data, lo, buf[..done])
        invariant rc != Ok ==> AllPartly(old(segments), old(data), segments, data, lo, buf)
        invariant rc != Ok ==> LogPartly(old(segments), old(data), log, data, lo, buf)
        decreases |buf| - done
      {
        var n := Min(|buf| - done, MAX_LENGTH);
        ghost var more;
        rc, more := NextPiece(lo, buf, done, n, old(segments), old(data));
        RecordsThen(old(log), wrote, more, lo, lo + done, lo + done + n);
        wrote := wrote + more;
        done := done + n;
      }
      RecordsWider(wrote, lo, lo + done, lo + |buf|);
      if rc == Ok { assert buf[..done] == buf; }
    }

    /** A piece after the first `done` sectors of the request went through. */
    method NextPiece(lo: nat, buf: seq<Block>, done: nat, n: nat, ghost segs: seq<Mapping>, ghost before: seq<Block>)
      returns (rc: Code, ghost wrote: seq<Mapping>)
      requires Valid() && !journalFailed && lo + |buf| <= sectors && 0 < n <= MAX_LENGTH && done + n <= |buf|
      requires AllWrote(segs, before, segments, data, lo, buf[..done])
      modifies this`segments, this`data, this`dataEnd, this`ragged
      modifies this`log, this`ranges, this`poisoned, this`journalFailed
      ensures Valid() && Attempted(rc)
      ensures rc == Ok ==> !journalFailed && AllWrote(segs, before, segments, data, lo, buf[..done + n])
      ensures rc != Ok ==> AllPartly(segs, before, segments, data, lo, buf)
      ensures rc != Ok ==> LogPartly(segs, before, log, data, lo, buf)
      ensures rc == Ok && !old(ragged) ==> !ragged
      ensures log == old(log) + wrote && Records(wrote, lo + done, lo + done + n)
    {
      hide Journal;
      hide Meaning;
      hide LiveIndex;
      ghost var segs1, data1 := segments, data;
      rc, wrote := WritePiece(lo + done, buf[done..done + n]);
      if rc == Ok {
        WroteThen(segs, before, segs1, data1, segments, data, lo, buf, done, n);
      } else {
        PartlyThen(segs, before, segs1, data1, segments, log, data, lo, buf, done, n);
      }
    }

    /** discard. On failure nothing visible changed, and a reopen would find
        each sector as it was or zeroed. */
    method Discard(offset: nat, count: nat) returns (rc: Code)
      requires Valid()
      modifies this`segments, this`log, this`ranges, this`poisoned, this`journalFailed, this`since
      ensures Valid()
      ensures rc == ReadOnly <==> closed
      ensures rc == Invalid <==> !closed && Rejects(count, offset)
      ensures rc in {ReadOnly, Invalid} || old(journalFailed) ==> unchanged(this)
      ensures rc == Ok ==> !old(journalFailed) && !journalFailed
      ensures rc == Ok ==> AllWrote(old(segments), data, segments, data, offset / SECTOR, Zeros(count / SECTOR))
      ensures rc in {TooBig, IoError} ==> segments == old(segments)
      ensures rc in {TooBig, IoError} && !old(journalFailed) ==>
                LogZeroed(segments, log, offset / SECTOR, count / SECTOR)
      ensures since == old(since) || since == 0
    {
      if closed { return ReadOnly; }
      if offset % SECTOR != 0 || count % SECTOR != 0 || count == 0 { return Invalid; }
      if offset > SECTOR * sectors || count > SECTOR * sectors - offset { return Invalid; }
      rc := Prepare();
      if rc != Ok { return; }
      rc := ZeroPieces(offset / SECTOR, offset / SECTOR + count / SECTOR);
    }

    method ZeroPieces(lo: nat, hi: nat) returns (rc: Code)
      requires Valid() && !journalFailed && lo < hi <= sectors
      modifies this`segments, this`log, this`ranges, this`poisoned, this`journalFailed
      ensures Valid() && Attempted(rc)
      ensures rc == Ok ==> !journalFailed && AllWrote(old(segments), data, segments, data, lo, Zeros(hi - lo))
      ensures rc != Ok ==> segments == old(segments) && LogZeroed(segments, log, lo, hi - lo)
      ensures rc != Ok ==> (journalFailed <==> poisoned || log != old(log))
    {
      rc := Ok;
      var next := CutAll(LsmtMode, segments, lo, hi);
      CutSegsOk(segments, lo, hi, sectors, |data|);
      CutHoles(segments, lo, hi);
      var cur := lo;
      while cur < hi
        invariant lo <= cur <= hi && Attempted(rc) && segments == old(segments)
        invariant Pair(log, since, ranges, poisoned, sectors, |data|) && SegsOk(next, sectors, |data|)
        invariant ZeroedTo(next, segments, lo, cur, hi) && LogZeroedTo(log, segments, lo, cur) && rc == Ok
        invariant !journalFailed && !poisoned
        invariant if cur == lo then log == old(log) else |log| > |old(log)|
      {
        var n := Min(hi - cur, MAX_LENGTH);
        rc, next := ZeroPiece(next, lo, cur, n, hi);
        if rc != Ok { return; }
        cur := cur + n;
      }
      ZeroDone(segments, next, log, data, lo, hi);
      segments := next;
    }

    /** Journals and stages one zeroed segment. */
    method ZeroPiece(staged: seq<Mapping>, lo: nat, cur: nat, n: nat, ghost hi: nat)
      returns (rc: Code, next: seq<Mapping>)
      requires sectors <= MAX_OFFSET && Pair(log, since, ranges, poisoned, sectors, |data|)
      requires SegsOk(staged, sectors, |data|) && !journalFailed && !poisoned
      requires lo <= cur < cur + n <= hi <= sectors && n <= MAX_LENGTH && DATA_START <= |data|
      requires ZeroedTo(staged, segments, lo, cur, hi) && LogZeroedTo(log, segments, lo, cur)
      modifies this`log, this`ranges, this`poisoned, this`journalFailed
      ensures Attempted(rc) && Pair(log, since, ranges, poisoned, sectors, |data|)
      ensures rc == Ok ==> !journalFailed && !poisoned && |log| > |old(log)| && SegsOk(next, sectors, |data|)
      ensures rc == Ok ==> ZeroedTo(next, segments, lo, cur + n, hi) && LogZeroedTo(log, segments, lo, cur + n)
      ensures rc != Ok ==> LogZeroed(segments, log, lo, hi - lo) && (!journalFailed ==> Agree(log, segments))
      ensures rc != Ok ==> (journalFailed <==> poisoned || cur != lo) && (poisoned || log == old(log))
      ensures rc != Ok ==> |log| >= |old(log)|
    {
      var m := Mapping(cur, n, DATA_START, true, 0);
      ZeroStep(log, segments, m, lo);
      rc := Append(m, |data|, |data|);
      next := staged;
      if rc == Ok {
        next := InsertFused(staged, m, sectors, |data|, DATA_START);
      } else {
        journalFailed := poisoned || cur != lo;
      }
    }

    /** pread: clipped at the end of the volume; refused after a journal failure. */
    method Pread(count: nat, offset: nat) returns (rc: Code, out: seq<Block>)
      requires Valid()
      ensures rc == Invalid <==> !journalFailed && (offset % SECTOR != 0 || count % SECTOR != 0)
      ensures rc in {Ok, Invalid, IoError} && (journalFailed ==> rc == IoError)
      ensures rc == Ok && offset >= SECTOR * sectors ==> out == []
      ensures rc == Ok && offset < SECTOR * sectors ==> |out| == Min(count / SECTOR, sectors - offset / SECTOR)
      ensures rc == Ok ==> forall i :: 0 <= i < |out| ==> out[i] == ReadAt(segments, data, offset / SECTOR + i)
    {
      out := [];
      if journalFailed { return IoError, out; }
      if offset % SECTOR != 0 || count % SECTOR != 0 { return Invalid, out; }
      if offset >= SECTOR * sectors { return Ok, out; }
      var start := offset / SECTOR;
      rc, out := ReadSegments(segments, data, start, start + Min(count / SECTOR, sectors - start), sectors);
    }

    /** grow: an intent once published is rolled forward, here or by a later
        call or open; until then every mutation is refused. */
    method Grow(bytes: nat) returns (rc: Code)
      requires Valid()
      modifies this`sectors, this`poisoned, this`journalFailed, this`pending
      ensures Valid() && old(sectors) <= sectors
      ensures rc == Ok ==> !journalFailed && pending.None? && SECTOR * sectors == bytes
      ensures sectors != old(sectors) ==> SECTOR * sectors == bytes || old(pending) == Some(sectors)
      ensures !journalFailed && old(journalFailed) ==> old(pending).Some?
      ensures rc in {Ok, Invalid, ReadOnly, IoError} && (rc == ReadOnly <==> closed)
      ensures rc == Invalid <==> !closed && !journalFailed && pending.None? && RefusedSize(bytes, sectors)
      ensures old(pending).None? && rc in {Invalid, ReadOnly} ==> unchanged(this)
      ensures old(journalFailed) && old(pending).None? ==> rc in {ReadOnly, IoError} && unchanged(this)
    {
      if closed { return ReadOnly; }
      if journalFailed && pending.None? { return IoError; }
      if poisoned && pending.None? { return IoError; }
      if pending.Some? {
        var ok := RollForward();
        if !ok { return IoError; }
      }
      if RefusedSize(bytes, sectors) { return Invalid; }
      if bytes == SECTOR * sectors { return Ok; }
      var ok: bool := *;
      if !ok { return IoError; }
      pending, poisoned, journalFailed := Some(bytes / SECTOR), true, true;
      ok := RollForward();
      rc := if ok then Ok else IoError;
    }

    method RollForward() returns (ok: bool)
      requires Valid() && pending.Some?
      modifies this`sectors, this`poisoned, this`journalFailed, this`pending
      ensures Valid()
      ensures if ok then sectors == old(pending).value && pending.None? && !journalFailed && !poisoned
              else sectors == old(sectors) && pending == old(pending) && journalFailed && poisoned
    {
      ok := *;
      if ok {
        JournalMore(log, since, sectors, |data|, pending.value, |data|);
        sectors := pending.value;
        pending, poisoned, journalFailed := None, false, false;
      }
    }

    constructor (log: seq<Mapping>, segments: seq<Mapping>, data: seq<Block>, sectors: nat, ghost since: nat)
      requires Store(segments, sectors, |data|, |data|) && Journal(log, since, sectors, |data|)
      requires segments == LiveIndex(log)
      ensures Valid() && !journalFailed && !poisoned && pending.None? && !closed && !ragged
      ensures this.log == log && this.segments == segments && this.data == data && this.sectors == sectors
      ensures this.since == since
    {
      this.log, this.segments, this.data, this.sectors := log, segments, data, sectors;
      this.dataEnd, this.ranges, this.since := |data|, RangesOf(segments), since;
      this.poisoned, this.journalFailed, this.closed, this.pending, this.ragged := false, false, false, None, false;
      new;
      forall s: int
        ensures Meaning(log, s) == Resolve(segments, s)
      {
        LiveMeans(log, sectors, |data|, s);
      }
    }

    /** Opening what is on disk with the index file cut at any byte, whatever state
        this layer was in: refused exactly when the complete records alias, which
        they do not from `since` on; else exactly they come back, and the new layer
        may be cut wherever this one could. */
    method Reopen(bytes: nat, capacity: nat) returns (again: Option<Layer>)
      requires Valid() && CompleteRecords(bytes) <= |log| && sectors <= capacity <= MAX_OFFSET
      ensures again.None? <==> HybridReplay.Alias(LiveIndex(log[..CompleteRecords(bytes)]))
      ensures since <= CompleteRecords(bytes) ==> again.Some? && again.value.since == since
      ensures again.Some? ==> fresh(again.value) && again.value.Valid() && !again.value.journalFailed
      ensures again.Some? ==> !again.value.poisoned && again.value.pending.None? && again.value.data == data
      ensures again.Some? ==> again.value.sectors == capacity && again.value.log == log[..CompleteRecords(bytes)]
      ensures again.Some? ==>
                forall s: int :: Resolve(again.value.segments, s) == Meaning(log[..CompleteRecords(bytes)], s)
    {
      var n := CompleteRecords(bytes);
      JournalMore(log, since, sectors, |data|, capacity, |data|);
      CutWithinLimits(log, n, since, capacity, |data|);
      ghost var from := n;
      if since <= n {
        CutReplays(log, n, since, capacity, |data|);
        CutJournal(log, n, since, capacity, |data|);
        from := since;
      }
      again := OpenLayer(log[..n], data, capacity, from);
    }
  }

  /** open_existing and from_pair, from the log's records on: refused exactly when
      replay is, and otherwise a usable layer that reads what the records say. */
  method OpenLayer(log: seq<Mapping>, data: seq<Block>, sectors: nat, ghost since: nat) returns (r: Option<Layer>)
    requires since <= |log| && forall n :: since <= n < |log| ==> DataInjective(LiveIndex(log[..n]))
    ensures r.Some? <==>
            && sectors <= MAX_OFFSET && DATA_START <= |data|
            && Replayable(log, sectors, |data|) && !HybridReplay.Alias(LiveIndex(log))
    ensures r.Some? ==> fresh(r.value) && r.value.Valid() && !r.value.journalFailed && !r.value.poisoned
    ensures r.Some? ==> r.value.pending.None?
    ensures r.Some? ==> r.value.log == log && r.value.data == data && r.value.sectors == sectors
    ensures r.Some? ==> r.value.since == since
    ensures r.Some? ==> forall s: int :: Resolve(r.value.segments, s) == Meaning(log, s)
  {
    if sectors > MAX_OFFSET || |data| < DATA_START || |log| > MAX_LOG_RECORDS { return None; }
    var live := ReplayLog(log, sectors, |data|);
    if live.None? { return None; }
    LiveSegsOk(log, sectors, |data|);
    NoAliasInjective(live.value);
    assert log[..|log|] == log;
    var layer := new Layer(log, live.value, data, sectors, since);
    r := Some(layer);
  }

  lemma {:induction false} CutJournal(log: seq<Mapping>, n: nat, since: nat, sectors: nat, size: nat)
    requires Journal(log, since, sectors, size) && since <= n <= |log|
    ensures Journal(log[..n], since, sectors, size)
  {
    CutReplays(log, n, since, sectors, size);
    assert forall k :: since <= k <= n ==> log[..n][..k] == log[..k];
  }

  /** The scan of pread: the segment holding a sector, or how far the gap goes. */
  method Locate(segs: seq<Mapping>, sector: nat, limit: nat) returns (hit: Option<Mapping>, next: nat)
    requires Index(segs) && sector < limit
    ensures hit.Some? ==> hit.value in segs && hit.value.Covers(sector)
    ensures sector < next <= limit && (hit.None? ==> forall t: int :: sector <= t < next ==> Resolve(segs, t) == Hole)
  {
    hit, next := None, limit;
    var k: nat := 0;
    while k < |segs| && segs[k].offset <= sector
      invariant k <= |segs| && (hit.Some? ==> hit.value in segs && hit.value.Covers(sector))
      invariant hit.None? ==> forall i :: 0 <= i < k ==> segs[i].End() <= sector
    {
      if segs[k].End() > sector { hit := Some(segs[k]); }
      k := k + 1;
    }
    if k < |segs| { next := Min(next, segs[k].offset); }
    if hit.None? {
      forall t: int | sector <= t < next
        ensures Resolve(segs, t) == Hole
      {
        GapIsHole(segs, k, t);
      }
    }
  }

  method ReadSegments(segs: seq<Mapping>, data: seq<Block>, start: nat, end: nat, ghost sectors: nat)
    returns (rc: Code, out: seq<Block>)
    requires SegsOk(segs, sectors, |data|) && start <= end
    ensures rc in {Ok, IoError}
    ensures rc == Ok ==> |out| == end - start && forall i :: 0 <= i < |out| ==> out[i] == ReadAt(segs, data, start + i)
  {
    rc, out := Ok, [];
    while start + |out| < end
      invariant start + |out| <= end && rc == Ok
      invariant forall i :: 0 <= i < |out| ==> out[i] == ReadAt(segs, data, start + i)
      decreases end - |out|
    {
      var pos: nat := start + |out|;
      var hit, next := Locate(segs, pos, end);
      var piece;
      if hit.Some? && !hit.value.zeroed {
        var ok: bool := *;
        if !ok { return IoError, out; }
        var m := hit.value;
        var from := m.moffset + (pos - m.offset);
        piece := data[from..from + (Min(m.End(), end) - pos)];
      } else {
        piece := Zeros((if hit.Some? then Min(hit.value.End(), end) else next) - pos);
      }
      PieceReads(segs, data, pos, hit, piece, end);
      out := out + piece;
    }
  }

  lemma {:induction false} PieceReads(segs: seq<Mapping>, data: seq<Block>, pos: nat, hit: Option<Mapping>,
                                      piece: seq<Block>, end: nat)
    requires Index(segs) && pos + |piece| <= end
    requires hit.Some? ==> hit.value in segs && hit.value.Covers(pos) && pos + |piece| == Min(hit.value.End(), end)
    requires if hit.Some? && !hit.value.zeroed
             then var from := hit.value.moffset + (pos - hit.value.offset);
                  hit.value.moffset + hit.value.length <= |data| && piece == data[from..from + |piece|]
             else && piece == Zeros(|piece|)
                  && (hit.None? ==> forall t: int :: pos <= t < pos + |piece| ==> Resolve(segs, t) == Hole)
    ensures forall i :: 0 <= i < |piece| ==> piece[i] == ReadAt(segs, data, pos + i)
  {
    forall i | 0 <= i < |piece|
      ensures piece[i] == ReadAt(segs, data, pos + i)
    {
      if hit.Some? {
        var k :| 0 <= k < |segs| && segs[k] == hit.value;
        ResolveAt(segs, k, pos + i);
      }
    }
  }

  /** The log says ZERO inside some part of the request and else what the
      segments say. */
  ghost predicate LogZeroed(segs: seq<Mapping>, log: seq<Mapping>, lo: nat, n: nat) {
    forall s: int :: Meaning(log, s) == Resolve(segs, s) || (lo <= s < lo + n && Meaning(log, s) == Zero(0))
  }

  ghost predicate LogZeroedTo(log: seq<Mapping>, segs: seq<Mapping>, lo: nat, cur: nat) {
    forall s: int :: Meaning(log, s) == if lo <= s < cur then Zero(0) else Resolve(segs, s)
  }

  ghost predicate ZeroedTo(next: seq<Mapping>, segs: seq<Mapping>, lo: nat, cur: nat, hi: nat) {
    forall s: int ::
      Resolve(next, s) == if lo <= s < cur then Zero(0) else if cur <= s < hi then Hole else Resolve(segs, s)
  }

  lemma {:induction false} CutHoles(segs: seq<Mapping>, lo: nat, hi: nat)
    requires lo <= hi
    ensures ZeroedTo(Cut(LsmtMode, segs, lo, hi), segs, lo, lo, hi)
  {
    forall s: int
      ensures Resolve(Cut(LsmtMode, segs, lo, hi), s) == if lo <= s < hi then Hole else Resolve(segs, s)
    {
      ResolveCut(LsmtMode, segs, lo, hi, s);
    }
  }

  lemma {:induction false} ZeroStep(log: seq<Mapping>, segs: seq<Mapping>, m: Mapping, lo: nat)
    requires LogZeroedTo(log, segs, lo, m.offset) && m.zeroed && !Skipped(m) && Norm(m) == m && lo <= m.offset
    ensures LogZeroedTo(log + [m], segs, lo, m.End())
  {
    forall s: int
      ensures Meaning(log + [m], s) == if lo <= s < m.End() then Zero(0) else Resolve(segs, s)
    {
      MeaningAppend(log, m, s);
    }
  }

  lemma {:induction false} ZeroDone(segs: seq<Mapping>, next: seq<Mapping>, log: seq<Mapping>, data: seq<Block>,
                                    lo: nat, hi: nat)
    requires lo <= hi && DataInjective(segs) && ZeroedTo(next, segs, lo, hi, hi) && LogZeroedTo(log, segs, lo, hi)
    ensures DataInjective(next) && Agree(log, next) && AllWrote(segs, data, next, data, lo, Zeros(hi - lo))
  {
  }

  lemma {:induction false} WroteThen(l: seq<Mapping>, d: seq<Block>, l1: seq<Mapping>, d1: seq<Block>,
                                     l2: seq<Mapping>, d2: seq<Block>,
                                     lo: nat, buf: seq<Block>, done: nat, n: nat)
    requires done + n <= |buf| && AllWrote(l, d, l1, d1, lo, buf[..done])
    requires AllWrote(l1, d1, l2, d2, lo + done, buf[done..done + n])
    ensures AllWrote(l, d, l2, d2, lo, buf[..done + n])
  {
    forall s: int
      ensures Wrote(Resolve(l, s), d, Resolve(l2, s), d2, s, lo, buf[..done + n])
    {
      assert Wrote(Resolve(l, s), d, Resolve(l1, s), d1, s, lo, buf[..done]);
      assert Wrote(Resolve(l1, s), d1, Resolve(l2, s), d2, s, lo + done, buf[done..done + n]);
    }
  }

  lemma {:induction false} PartlyThen(l: seq<Mapping>, d: seq<Block>, l1: seq<Mapping>, d1: seq<Block>,
                                      l2: seq<Mapping>, log: seq<Mapping>, d2: seq<Block>,
                                      lo: nat, buf: seq<Block>, done: nat, n: nat)
    requires done + n <= |buf| && AllWrote(l, d, l1, d1, lo, buf[..done])
    requires AllPartly(l1, d1, l2, d2, lo + done, buf[done..done + n])
    requires LogPartly(l1, d1, log, d2, lo + done, buf[done..done + n])
    ensures AllPartly(l, d, l2, d2, lo, buf) && LogPartly(l, d, log, d2, lo, buf)
  {
    forall s: int
      ensures Partly(Resolve(l, s), d, Resolve(l2, s), d2, s, lo, buf)
      ensures Partly(Resolve(l, s), d, Meaning(log, s), d2, s, lo, buf)
    {
      assert Wrote(Resolve(l, s), d, Resolve(l1, s), d1, s, lo, buf[..done]);
      assert Partly(Resolve(l1, s), d1, Resolve(l2, s), d2, s, lo + done, buf[done..done + n]);
      assert Partly(Resolve(l1, s), d1, Meaning(log, s), d2, s, lo + done, buf[done..done + n]);
    }
  }

  ghost predicate PartsOk(parts: seq<Part>, segs: seq<Mapping>, end0: nat, end: nat) {
    FreshInOrder(parts) && forall i :: 0 <= i < |parts| ==> PartOk(parts[i], segs, end0, end)
  }

  ghost predicate ExtentsBelow(plan: seq<Mapping>, size: nat) {
    forall i :: 0 <= i < |plan| ==> plan[i].moffset + plan[i].length <= size
  }

  /** A planned request whose payload was being written. */
  ghost predicate Staged(segs: seq<Mapping>, parts: seq<Part>, before: seq<Block>, after: seq<Block>, lo: nat,
                         blocks: seq<Block>, end0: nat, end: nat) {
    && |before| <= |after| <= end && end0 <= end
    && PlanOk(Maps(parts), segs, lo, lo + |blocks|, end0, end) && PartsOk(parts, segs, end0, end)
    && DataInjective(Maps(parts))
    && AllPartly(segs, before, segs, after, lo, blocks)
  }

  /** All of it reached the payload file. */
  ghost predicate Finished(parts: seq<Part>, after: seq<Block>, lo: nat, blocks: seq<Block>) {
    Landed(after, Maps(parts), lo, lo + |blocks|, blocks) && ExtentsBelow(Maps(parts), |after|)
  }

  /** Plans a piece and writes its payload. */
  method Stage(segs: seq<Mapping>, data: seq<Block>, dataEnd: nat, lo: nat, blocks: seq<Block>, ghost sectors: nat)
    returns (ok: bool, parts: seq<Part>, end: nat, after: seq<Block>)
    requires Store(segs, sectors, |data|, dataEnd) && 0 < |blocks| <= MAX_LENGTH && lo + |blocks| <= sectors
    ensures Staged(segs, parts, data, after, lo, blocks, dataEnd, end)
    ensures ok ==> Finished(parts, after, lo, blocks)
  {
    var hi := lo + |blocks|;
    parts, end := PlanPiece(segs, lo, hi, dataEnd, sectors, |data|);
    PlanInjective(Maps(parts), segs, lo, hi, dataEnd, end, sectors, |data|);
    PlanBelow(parts, segs, dataEnd, end, sectors, |data|);
    ok, after := WriteParts(data, Maps(parts), lo, hi, blocks, end);
    PieceSpares(segs, Maps(parts), data, after, lo, blocks, dataEnd, end, sectors);
    if ok { LandedBelow(Maps(parts), after, lo, hi, blocks); }
  }

  ghost predicate AllWrote(l: seq<Mapping>, before: seq<Block>, l': seq<Mapping>, after: seq<Block>, lo: nat,
                           blocks: seq<Block>) {
    forall s: int :: Wrote(Resolve(l, s), before, Resolve(l', s), after, s, lo, blocks)
  }

  ghost predicate AllPartly(l: seq<Mapping>, before: seq<Block>, l': seq<Mapping>, after: seq<Block>, lo: nat,
                            blocks: seq<Block>) {
    forall s: int :: Partly(Resolve(l, s), before, Resolve(l', s), after, s, lo, blocks)
  }

  /** The same of what a reopen would find. */
  ghost predicate LogPartly(l: seq<Mapping>, before: seq<Block>, log: seq<Mapping>, after: seq<Block>, lo: nat,
                            blocks: seq<Block>) {
    forall s: int :: Partly(Resolve(l, s), before, Meaning(log, s), after, s, lo, blocks)
  }

  predicate AllInPlace(parts: seq<Part>) {
    forall i :: 0 <= i < |parts| ==> parts[i].inplace
  }

  lemma {:induction false} PlanBelow(parts: seq<Part>, segs: seq<Mapping>, end0: nat, end: nat, sectors: nat, size: nat)
    requires PartsOk(parts, segs, end0, end) && SegsOk(segs, sectors, size) && size <= end0 <= end
    ensures ExtentsBelow(Maps(parts), end) && forall i :: 0 <= i < |parts| ==> !Maps(parts)[i].zeroed
  {
    forall i | 0 <= i < |parts|
      ensures parts[i].m.moffset + parts[i].m.length <= end
    {
      if parts[i].inplace { DataBelow(segs, sectors, size, parts[i].m.End() - 1); }
    }
  }

  lemma {:induction false} PartsSegOk(parts: seq<Part>, segs: seq<Mapping>, end0: nat, end: nat, more: nat,
                                      sectors: nat, size: nat)
    requires PartsOk(parts, segs, end0, end) && SegsOk(segs, sectors, size) && DATA_START <= size <= end0
    requires ExtentsBelow(Maps(parts), more)
    ensures forall i :: 0 <= i < |parts| ==> SegOk(Maps(parts)[i], more)
  {
    forall i | 0 <= i < |parts|
      ensures SegOk(Maps(parts)[i], more)
    {
      assert PartOk(parts[i], segs, end0, end);
      if parts[i].inplace { DataBelow(segs, sectors, size, parts[i].m.offset); }
    }
  }

  /** Parts whose blocks landed lie inside the payload file. */
  lemma {:induction false} LandedBelow(plan: seq<Mapping>, data: seq<Block>, lo: nat, hi: nat, blocks: seq<Block>)
    requires Index(plan) && Within(plan, lo, hi) && |blocks| == hi - lo && Landed(data, plan, lo, hi, blocks)
    ensures ExtentsBelow(plan, |data|)
  {
    forall i | 0 <= i < |plan|
      ensures plan[i].moffset + plan[i].length <= |data|
    {
      ResolveAt(plan, i, plan[i].End() - 1);
    }
  }

  lemma {:induction false} PieceSpares(segs: seq<Mapping>, plan: seq<Mapping>, before: seq<Block>, after: seq<Block>,
                                       lo: nat, blocks: seq<Block>,
                                       end0: nat, end: nat, sectors: nat)
    requires PlanOk(plan, segs, lo, lo + |blocks|, end0, end) && SegsOk(segs, sectors, |before|) && DataInjective(segs)
    requires |before| <= end0
    requires Untouched(before, after, plan, |plan|) && forall i :: 0 <= i < |plan| ==> !plan[i].zeroed
    ensures AllPartly(segs, before, segs, after, lo, blocks)
  {
    forall s: int
      ensures Partly(Resolve(segs, s), before, Resolve(segs, s), after, s, lo, blocks)
    {
      if !(lo <= s < lo + |blocks| && Resolve(segs, s).Data?) {
        PlanSpares(segs, plan, before, after, lo, lo + |blocks|, end0, end, sectors, s);
      }
    }
  }

  lemma {:induction false} InPlaceDone(segs: seq<Mapping>, parts: seq<Part>, before: seq<Block>, after: seq<Block>,
                                       lo: nat, blocks: seq<Block>, end0: nat, end: nat)
    requires PlanOk(Maps(parts), segs, lo, lo + |blocks|, end0, end) && AllInPlace(parts)
    requires Landed(after, Maps(parts), lo, lo + |blocks|, blocks)
    requires PartsOk(parts, segs, end0, end)
    requires AllPartly(segs, before, segs, after, lo, blocks)
    ensures AllWrote(segs, before, segs, after, lo, blocks)
  {
    var plan := Maps(parts);
    forall s: int
      ensures Wrote(Resolve(segs, s), before, Resolve(segs, s), after, s, lo, blocks)
    {
      assert Partly(Resolve(segs, s), before, Resolve(segs, s), after, s, lo, blocks);
      if lo <= s < lo + |blocks| {
        var k := ResolveWitness(plan, s);
        assert PartOk(parts[k], segs, end0, end) && parts[k].inplace;
      }
    }
  }

  lemma {:induction false} PieceLogged(segs: seq<Mapping>, log: seq<Mapping>, plan: seq<Mapping>, before: seq<Block>,
                                       after: seq<Block>, lo: nat, blocks: seq<Block>, cur: nat)
    requires AllPartly(segs, before, segs, after, lo, blocks) && Landed(after, plan, lo, lo + |blocks|, blocks)
    requires cur <= lo + |blocks| && Published(log, plan, segs, lo, cur)
    ensures LogPartly(segs, before, log, after, lo, blocks)
  {
    forall s: int
      ensures Partly(Resolve(segs, s), before, Meaning(log, s), after, s, lo, blocks)
    {
      assert Partly(Resolve(segs, s), before, Resolve(segs, s), after, s, lo, blocks);
    }
  }

  lemma {:induction false} PieceDone(segs: seq<Mapping>, next: seq<Mapping>, log: seq<Mapping>, plan: seq<Mapping>,
                                     before: seq<Block>, after: seq<Block>,
                                     lo: nat, blocks: seq<Block>)
    requires AllPartly(segs, before, segs, after, lo, blocks) && Landed(after, plan, lo, lo + |blocks|, blocks)
    requires forall s: int :: Resolve(next, s) == if lo <= s < lo + |blocks| then Resolve(plan, s) else Resolve(segs, s)
    requires Published(log, plan, segs, lo, lo + |blocks|)
    ensures AllWrote(segs, before, next, after, lo, blocks) && Agree(log, next)
  {
    forall s: int
      ensures Wrote(Resolve(segs, s), before, Resolve(next, s), after, s, lo, blocks)
    {
      assert Partly(Resolve(segs, s), before, Resolve(segs, s), after, s, lo, blocks);
    }
  }

  lemma {:induction false} EditInjective(segs: seq<Mapping>, next: seq<Mapping>, plan: seq<Mapping>, lo: nat, hi: nat,
                                         end0: nat, end: nat, sectors: nat, size: nat)
    requires PlanOk(plan, segs, lo, hi, end0, end) && SegsOk(segs, sectors, size) && DataInjective(segs) && size <= end0
    requires DataInjective(plan)
    requires forall s: int :: Resolve(next, s) == if lo <= s < hi then Resolve(plan, s) else Resolve(segs, s)
    ensures DataInjective(next)
  {
    forall s: int, t: int | s != t && Resolve(next, s).Data? && Resolve(next, t).Data?
      ensures Resolve(next, s).phys != Resolve(next, t).phys
    {
      if Resolve(segs, s).Data? { DataBelow(segs, sectors, size, s); }
      if Resolve(segs, t).Data? { DataBelow(segs, sectors, size, t); }
    }
  }

  /** Fresh payload of the parts from the i-th on starts at `bound` or later. */
  ghost predicate FreshFrom(parts: seq<Part>, i: nat, bound: nat) {
    forall j :: i <= j < |parts| && !parts[j].inplace ==> parts[j].m.moffset >= bound
  }

  /** The log says what the plan says up to `cur` and else what the segments say. */
  ghost predicate Published(log: seq<Mapping>, plan: seq<Mapping>, segs: seq<Mapping>, lo: nat, cur: nat) {
    forall s: int :: Meaning(log, s) == if lo <= s < cur then Resolve(plan, s) else Resolve(segs, s)
  }

  lemma {:induction false} InPlaceStep(log: seq<Mapping>, plan: seq<Mapping>, i: nat, segs: seq<Mapping>, lo: nat)
    requires Index(plan) && i < |plan| && Published(log, plan, segs, lo, plan[i].offset)
    requires forall s: int :: plan[i].Covers(s) ==> Resolve(segs, s) == plan[i].At(s)
    ensures Published(log, plan, segs, lo, plan[i].End())
  {
    forall s: int | plan[i].Covers(s)
      ensures Resolve(plan, s) == Resolve(segs, s)
    {
      ResolveAt(plan, i, s);
    }
  }

  lemma {:induction false} PublishStep(log: seq<Mapping>, m: Mapping, plan: seq<Mapping>, i: nat, segs: seq<Mapping>,
                                       lo: nat)
    requires Index(plan) && i < |plan| && plan[i] == m && lo <= m.offset && !Skipped(m) && Norm(m) == m
    requires Published(log, plan, segs, lo, m.offset)
    ensures Published(log + [m], plan, segs, lo, m.End())
  {
    forall s: int
      ensures Meaning(log + [m], s) == if lo <= s < m.End() then Resolve(plan, s) else Resolve(segs, s)
    {
      MeaningAppend(log, m, s);
      if m.Covers(s) { ResolveAt(plan, i, s); }
    }
  }
}
