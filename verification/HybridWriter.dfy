/** The Hybrid upper's writer: payload first, then one log record, then the
    mapping in memory; owned payload is rewritten in place. */
module HybridWriter {
  import opened Segments
  import opened SectorArray
  import opened HybridReplay
  import opened HybridStore

  datatype Code = Ok | Invalid | Failed | ReadOnly | Already | IndexFull | TooBig | IoError

  /** What an admitted operation may return. */
  predicate Outcome(rc: Code) { rc in {Ok, IndexFull, TooBig, IoError} }

  /** replace: what the update covers is cut from every mapping, the update
      joins at its place in offset order; None above the index limit. */
  method Replace(l: seq<Mapping>, update: Mapping) returns (r: Option<seq<Mapping>>)
    requires update.length > 0
    ensures r == if |Overlay(HybridMode, l, update)| > MAX_INDEX then None else Some(Overlay(HybridMode, l, update))
  {
    var next := CutAll(HybridMode, l, update.offset, update.End());
    next := Insert(next, update);
    r := if |next| > MAX_INDEX then None else Some(next);
  }

  /** `u` lies inside mapping k of `l`, or in the gap before it. */
  ghost predicate InsideOne(l: seq<Mapping>, u: Mapping, k: nat) {
    && k <= |l| && u.length > 0
    && (forall i :: 0 <= i < k ==> l[i].End() <= u.offset)
    && (k < |l| ==> u.End() <= l[k].offset || (l[k].offset <= u.offset && u.End() <= l[k].End()))
  }

  /** The next piece of a request, as modify plans it. */
  datatype Piece = Piece(length: nat, covered: bool, backed: bool, transition: bool, mapping: Mapping, k: nat)

  /** Plans the piece starting at `sector`: it stays inside one mapping or one
      gap, and reuses the payload that mapping owns. */
  method Plan(l: seq<Mapping>, sectors: nat, dataEnd: nat, sector: nat, remaining: nat, zero: bool) returns (p: Piece)
    requires MapOk(l, sectors, dataEnd) && dataEnd <= MAX_FILE_SECTORS
    requires remaining > 0 && sector + remaining <= sectors
    ensures 0 < p.length <= Min(remaining, MAX_LENGTH)
    ensures p.mapping.offset == sector && p.mapping.length == p.length && p.mapping.zeroed == zero
    ensures p.backed <==> p.mapping.moffset != dataEnd
    ensures Publishable(l, p.mapping, sectors, dataEnd)
    ensures InsideOne(l, p.mapping, p.k)
    ensures p.covered <==> p.k < |l| && l[p.k].offset <= sector
    ensures p.transition <==> !(p.backed && p.covered && l[p.k].zeroed == zero)
    ensures !p.transition ==> forall s: int :: p.mapping.Covers(s) ==> Resolve(l, s) == p.mapping.At(s)
  {
    var k := UpperBound(l, sector);
    var covered := k < |l| && l[k].offset <= sector;
    var boundary := if covered then l[k].End() else if k == |l| then sectors else l[k].offset;
    var length := Min(Min(boundary - sector, remaining), MAX_LENGTH);
    var backed := covered && l[k].moffset != NO_PHYSICAL;
    var physical := if backed then l[k].moffset + (sector - l[k].offset) else dataEnd;
    var transition := !covered || l[k].zeroed != zero || !backed;
    var m := Mapping(sector, length, physical, zero, 0);
    forall s: int | m.Covers(s)
      ensures backed ==> Owner(l, s) == Some(m.moffset + (s - m.offset))
      ensures !backed ==> Owner(l, s) == None
      ensures !transition ==> Resolve(l, s) == m.At(s)
    {
      if covered {
        ResolveAt(l, k, s);
      } else {
        GapOwnsNothing(l, k, s);
      }
    }
    p := Piece(length, covered, backed, transition, m, k);
  }

  lemma {:induction false} GapOwnsNothing(l: seq<Mapping>, k: nat, s: int)
    requires Index(l) && k <= |l| && (forall i :: 0 <= i < k ==> l[i].End() <= s) && (k < |l| ==> s < l[k].offset)
    ensures Owner(l, s) == None
  {
    forall i | 0 <= i < |l|
      ensures !l[i].Covers(s)
    {
      if i > k { assert l[k].End() <= l[i].offset; }
    }
    ResolveNone(l, s);
    OwnerHole(l, s);
  }

  /** Payload of a publishable piece belongs to no sector outside it. */
  lemma {:induction false} PieceElsewhere(l: seq<Mapping>, u: Mapping, sectors: nat, dataEnd: nat, s: int)
    requires MapOk(l, sectors, dataEnd) && dataEnd <= MAX_FILE_SECTORS && Injective(l)
    requires Publishable(l, u, sectors, dataEnd)
    requires !u.Covers(s) && Owner(l, s).Some?
    ensures !(u.moffset <= Owner(l, s).value < u.moffset + u.length)
  {
    DataIsOwned(l, sectors, dataEnd, s);
    if u.moffset <= Owner(l, s).value < u.moffset + u.length {
      var t := u.offset + (Owner(l, s).value - u.moffset);
      assert u.Covers(t);
    }
  }

  /** The part of a good store that survives even a failed operation. */
  ghost predicate Sound(l: seq<Mapping>, sectors: nat, dataEnd: nat) {
    && sectors <= MAX_OFFSET && DATA_START <= dataEnd <= MAX_FILE_SECTORS
    && MapOk(l, sectors, dataEnd) && Injective(l)
  }

  /** `next` is `l` with the record `u` published: same log edit, owners kept,
      payload conserved, contents changed on the piece only. */
  ghost predicate Publication(l: seq<Mapping>, log: seq<Mapping>, u: Mapping, next: seq<Mapping>, sectors: nat,
                              dataEnd: nat) {
    && Sound(next, sectors, EndAfter(u, dataEnd)) && LogOk(log + [u], next, sectors, EndAfter(u, dataEnd))
    && EndAfter(u, dataEnd) - |Owned(next, sectors)| == dataEnd - |Owned(l, sectors)|
    && OwnersKept(l, next) && |next| >= |l|
    && (forall s: int :: Resolve(next, s) == if u.Covers(s) then u.At(s) else Resolve(l, s))
  }

  lemma {:induction false} OverlayOwners(l: seq<Mapping>, u: Mapping, next: seq<Mapping>, sectors: nat, dataEnd: nat)
    requires Sound(l, sectors, dataEnd) && Publishable(l, u, sectors, dataEnd) && next == Overlay(HybridMode, l, u)
    ensures OwnersKept(l, next)
    ensures forall s: int :: Resolve(next, s) == if u.Covers(s) then u.At(s) else Resolve(l, s)
  {
    forall s: int
      ensures Owner(next, s) == if u.Covers(s) then u.OwnerAt(s) else Owner(l, s)
      ensures Resolve(next, s) == if u.Covers(s) then u.At(s) else Resolve(l, s)
    {
      OwnerOverlay(l, u, sectors, dataEnd, s);
    }
  }

  lemma {:induction false} PublishFacts(l: seq<Mapping>, log: seq<Mapping>, u: Mapping, next: seq<Mapping>,
                                        sectors: nat, dataEnd: nat, k: nat)
    requires Sound(l, sectors, dataEnd) && LogOk(log, l, sectors, dataEnd) && Publishable(l, u, sectors, dataEnd)
    requires InsideOne(l, u, k)
    requires |log| < MAX_LOG_RECORDS && |next| <= MAX_INDEX && EndAfter(u, dataEnd) <= MAX_FILE_SECTORS
    requires next == Overlay(HybridMode, l, u)
    ensures Publication(l, log, u, next, sectors, dataEnd)
  {
    PublishGood(l, log, u, sectors, dataEnd);
    PublishConserves(l, u, sectors, dataEnd);
    OverlayOwners(l, u, next, sectors, dataEnd);
    OverlayGrows(l, u, k);
  }

  /** The mapping after publication, prepared before any payload is touched. */
  method Prepare(l: seq<Mapping>, ghost log: seq<Mapping>, u: Mapping, sectors: nat, dataEnd: nat, ghost k: nat)
    returns (next: Option<seq<Mapping>>)
    requires Sound(l, sectors, dataEnd) && LogOk(log, l, sectors, dataEnd) && Publishable(l, u, sectors, dataEnd)
    requires InsideOne(l, u, k)
    requires |log| < MAX_LOG_RECORDS && EndAfter(u, dataEnd) <= MAX_FILE_SECTORS
    ensures next.Some? ==> Publication(l, log, u, next.value, sectors, dataEnd)
    ensures next.None? ==> |Overlay(HybridMode, l, u)| > MAX_INDEX
  {
    next := Replace(l, u);
    if next.Some? { PublishFacts(l, log, u, next.value, sectors, dataEnd, k); }
  }

  class Writer {
    var sectors: nat
    var mappings: seq<Mapping>
    /** Records of the index file. */
    var log: seq<Mapping>
    /** The payload file, header sectors included. */
    var data: seq<Block>
    /** Where fresh payload goes, in sectors. */
    var dataEnd: nat
    var failed: bool
    var sealed: bool
    var checkpointed: bool

    ghost predicate Valid()
      reads this
    {
      && Sound(mappings, sectors, dataEnd) && dataEnd <= |data|
      && (!failed ==> LogOk(log, mappings, sectors, dataEnd) && |data| == dataEnd)
    }

    /** Payload not accounted for by owned sectors: header, garbage, leaks. */
    ghost function Slack(): int
      reads this
    {
      dataEnd - |Owned(mappings, sectors)|
    }

    /** Opens what replay accepted. */
    constructor (l: seq<Mapping>, records: seq<Mapping>, blocks: seq<Block>, size: nat)
      requires Good(l, records, size, |blocks|)
      ensures Valid() && !failed && !sealed && !checkpointed
      ensures mappings == l && log == records && data == blocks && dataEnd == |blocks| && sectors == size
    {
      sectors, mappings, log, data, dataEnd := size, l, records, blocks, |blocks|;
      failed, sealed, checkpointed := false, false, false;
    }

    /** A payload write. When it fails, any part of its range may be torn. */
    method WritePayload(p: nat, blocks: seq<Block>) returns (ok: bool)
      requires p <= |data|
      modifies this`data
      ensures ok ==> data == PutBlocks(old(data), p, blocks)
      ensures |data| >= |old(data)|
      ensures forall i :: 0 <= i < |old(data)| && !(p <= i < p + |blocks|) ==> data[i] == old(data)[i]
    {
      ok := *;
      if ok {
        data := PutBlocks(data, p, blocks);
      } else {
        var torn: seq<Block> :| |torn| <= |blocks|;
        data := PutBlocks(data, p, torn);
      }
    }

    /** The payload of a piece: rewritten in place or appended, except that
        discarding owned sectors writes nothing. */
    method PiecePayload(u: Mapping, backed: bool, blocks: seq<Block>) returns (ok: bool)
      requires Valid() && !failed && Publishable(mappings, u, sectors, dataEnd) && |blocks| == u.length
      requires backed <==> u.moffset != dataEnd
      modifies this`data
      ensures dataEnd <= |data|
      ensures forall s: int :: !u.Covers(s) ==> ReadAt(mappings, data, s) == ReadAt(old(mappings), old(data), s)
      ensures ok ==> |data| == EndAfter(u, dataEnd)
      ensures ok && !u.zeroed ==> forall i :: 0 <= i < u.length ==> data[u.moffset + i] == blocks[i]
    {
      ok := true;
      if !u.zeroed || !backed {
        ok := WritePayload(u.moffset, if u.zeroed then Zeros(u.length) else blocks);
      }
      forall s: int | !u.Covers(s)
        ensures ReadAt(mappings, data, s) == ReadAt(old(mappings), old(data), s)
      {
        if Owner(mappings, s).Some? { PieceElsewhere(mappings, u, sectors, dataEnd, s); }
        WriteElsewhere(mappings, sectors, dataEnd, old(data), data, u.moffset, u.length, s);
      }
    }

    /** The record of a transition, then its progress, then the mapping. */
    method PublishPiece(u: Mapping, next: seq<Mapping>) returns (ok: bool)
      requires Sound(mappings, sectors, dataEnd) && !failed && Publication(mappings, log, u, next, sectors, dataEnd)
      requires |data| == EndAfter(u, dataEnd)
      modifies this`dataEnd, this`mappings, this`log, this`failed
      ensures Valid() && ok == !failed && OwnersKept(old(mappings), mappings)
      ensures |log| <= |old(log)| + 1
      ensures ok ==> mappings == next && Slack() == old(Slack())
      ensures |mappings| >= |old(mappings)|
      ensures forall s: int :: !u.Covers(s) ==> ReadAt(mappings, data, s) == ReadAt(old(mappings), old(data), s)
      ensures ok ==> forall s: int :: u.Covers(s) ==>
                ReadAt(mappings, data, s) == if u.zeroed then ZERO_BLOCK else data[u.moffset + (s - u.offset)]
    {
      var written: bool := *;
      ok := *;
      ok := ok && written;
      if written { log := log + [u]; }
      if ok {
        dataEnd := EndAfter(u, dataEnd);
        mappings := next;
      } else {
        failed := true;
      }
    }

    /** A piece that changes kind or takes fresh payload. */
    method WriteTransition(p: Piece, blocks: seq<Block>) returns (rc: Code)
      requires Valid() && !failed && Publishable(mappings, p.mapping, sectors, dataEnd) && |log| < MAX_LOG_RECORDS
      requires InsideOne(mappings, p.mapping, p.k) && |blocks| == p.mapping.length
      requires p.backed <==> p.mapping.moffset != dataEnd
      modifies this`data, this`dataEnd, this`mappings, this`log, this`failed
      ensures Wrote(p.mapping, blocks, rc) && Outcome(rc)
    {
      if !p.backed && dataEnd + p.mapping.length > MAX_FILE_SECTORS { return TooBig; }
      var next := Prepare(mappings, log, p.mapping, sectors, dataEnd, p.k);
      if next.None? { return IndexFull; }
      rc := PublishTransition(p, blocks, next.value);
    }

    /** Its payload, its record and then its mapping. */
    method PublishTransition(p: Piece, blocks: seq<Block>, next: seq<Mapping>) returns (rc: Code)
      requires Valid() && !failed && Publishable(mappings, p.mapping, sectors, dataEnd)
      requires Publication(mappings, log, p.mapping, next, sectors, dataEnd)
      requires |blocks| == p.mapping.length && (p.backed <==> p.mapping.moffset != dataEnd)
      modifies this`data, this`dataEnd, this`mappings, this`log, this`failed
      ensures Wrote(p.mapping, blocks, rc) && Outcome(rc)
    {
      var ok := PiecePayload(p.mapping, p.backed, blocks);
      if ok {
        ok := PublishPiece(p.mapping, next);
      } else {
        failed := true;
      }
      rc := if ok then Ok else IoError;
    }

    /** What handling one piece guarantees. */
    twostate predicate Wrote(u: Mapping, blocks: seq<Block>, rc: Code)
      requires |blocks| == u.length
      reads this
    {
      && Valid() && OwnersKept(old(mappings), mappings)
      && (forall s: int :: !u.Covers(s) ==> ReadAt(mappings, data, s) == ReadAt(old(mappings), old(data), s))
      && |log| <= |old(log)| + 1 && |mappings| >= |old(mappings)|
      && (rc == Ok ==>
            && !failed && Slack() == old(Slack())
            && (forall s: int :: u.Covers(s) ==>
                      ReadAt(mappings, data, s) == if u.zeroed then ZERO_BLOCK else blocks[s - u.offset]))
    }

    /** One planned piece: payload, then the record, then the mapping. Owned DATA
        is rewritten in place, owned ZERO is left as it is; neither is logged. */
    method WritePiece(p: Piece, blocks: seq<Block>) returns (rc: Code)
      requires Valid() && !failed && Publishable(mappings, p.mapping, sectors, dataEnd) && |log| < MAX_LOG_RECORDS
      requires InsideOne(mappings, p.mapping, p.k) && |blocks| == p.mapping.length
      requires p.backed <==> p.mapping.moffset != dataEnd
      requires !p.transition ==> p.backed && forall s: int :: p.mapping.Covers(s) ==>
                Resolve(mappings, s) == p.mapping.At(s)
      modifies this`data, this`dataEnd, this`mappings, this`log, this`failed
      ensures Wrote(p.mapping, blocks, rc) && Outcome(rc)
    {
      if p.transition {
        rc := WriteTransition(p, blocks);
      } else {
        var ok := PiecePayload(p.mapping, p.backed, blocks);
        if !ok { failed := true; }
        rc := if ok then Ok else IoError;
      }
    }

    /** Gives every unbacked ZERO mapping of a staged copy its own payload. The
        mapping in memory and the log still say what they said. */
    method StageBacking() returns (rc: Code, staged: seq<Mapping>)
      requires Valid() && !failed
      modifies this`data, this`dataEnd, this`failed
      ensures Valid() && dataEnd >= old(dataEnd)
      ensures forall s: int :: ReadAt(mappings, data, s) == ReadAt(old(mappings), old(data), s)
      ensures Outcome(rc)
      ensures rc == Ok ==> !failed && Restaged(mappings, staged, sectors, old(dataEnd), dataEnd) && AllBacked(staged)
    {
      rc, staged := StageLoop();
      GoodMore(mappings, log, sectors, old(dataEnd), dataEnd);
      ReadKept(mappings, sectors, old(dataEnd), old(data), data);
    }

    /** The staging loop: appends zeroes for one unbacked mapping after another. */
    method StageLoop() returns (rc: Code, staged: seq<Mapping>)
      requires Sound(mappings, sectors, dataEnd) && |data| == dataEnd && !failed
      modifies this`data, this`dataEnd, this`failed
      ensures old(dataEnd) <= dataEnd <= MAX_FILE_SECTORS && dataEnd <= |data| && (!failed ==> |data| == dataEnd)
      ensures forall i :: 0 <= i < old(dataEnd) ==> data[i] == old(data)[i]
      ensures Outcome(rc)
      ensures rc == Ok ==> !failed && Restaged(mappings, staged, sectors, old(dataEnd), dataEnd) && AllBacked(staged)
    {
      staged := mappings;
      rc := Ok;
      var i: nat := 0;
      while i < |staged|
        invariant i <= |staged| && rc == Ok && !failed && |data| == dataEnd >= old(dataEnd)
        invariant forall k :: 0 <= k < old(dataEnd) ==> data[k] == old(data)[k]
        invariant Restaged(mappings, staged, sectors, old(dataEnd), dataEnd)
        invariant forall k :: 0 <= k < i ==> staged[k].moffset != NO_PHYSICAL
      {
        if staged[i].moffset == NO_PHYSICAL {
          rc, staged := StageOne(staged, i, old(dataEnd));
          if rc != Ok { return; }
        }
        i := i + 1;
      }
    }

    /** Appends zeroes for unbacked mapping i. */
    method StageOne(staged: seq<Mapping>, i: nat, ghost end0: nat) returns (rc: Code, next: seq<Mapping>)
      requires Restaged(mappings, staged, sectors, end0, dataEnd) && i < |staged| && staged[i].moffset == NO_PHYSICAL
      requires |data| == dataEnd >= end0 && !failed
      modifies this`data, this`dataEnd, this`failed
      ensures old(dataEnd) <= dataEnd <= MAX_FILE_SECTORS && dataEnd <= |data| && (!failed ==> |data| == dataEnd)
      ensures forall k :: 0 <= k < end0 ==> data[k] == old(data)[k]
      ensures Outcome(rc) && |next| == |staged|
      ensures rc == Ok ==> !failed && Restaged(mappings, next, sectors, end0, dataEnd)
      ensures rc == Ok ==> next[i].moffset != NO_PHYSICAL && forall k :: 0 <= k < |next| && k != i ==>
                next[k] == staged[k]
    {
      var n := staged[i].length;
      next := staged;
      if dataEnd + n > MAX_FILE_SECTORS { return TooBig, next; }
      RestageStep(mappings, staged, i, sectors, end0, dataEnd);
      var ok := WritePayload(dataEnd, Zeros(n));
      if !ok {
        failed := true;
        return IoError, next;
      }
      next := Back(staged, i, dataEnd);
      dataEnd := dataEnd + n;
      rc := Ok;
    }

    /** Replaces the log by the compacted index and adopts it. The replacement
        may fail before the rename, or after it: then the new index counts. */
    method ReplaceIndex(c: seq<Mapping>, ghost end0: nat) returns (ok: bool)
      requires Valid() && !failed && Compacted(mappings, c, sectors, end0, dataEnd)
      modifies this`log, this`mappings
      ensures Valid()
      ensures (mappings == old(mappings) && log == old(log) && !ok) || (mappings == log == c)
      ensures forall s: int :: ReadAt(mappings, data, s) == ReadAt(old(mappings), old(data), s)
    {
      var verify := Replay(c, sectors, |data|);
      // The preliminary replay never refuses, and never unbacks a mapping.
      CompactVerifies(c, sectors, dataEnd);
      assert verify == Some(c);
      var renamed: bool := *;
      ok := *;
      ok := ok && renamed;
      if renamed { log, mappings := c, c; }
    }

    /** Nothing a reader can see changed, and nothing moved. */
    twostate predicate Kept()
      reads this
    {
      && Valid() && sectors == old(sectors) && OwnersKept(old(mappings), mappings)
      && forall s: int :: ReadAt(mappings, data, s) == ReadAt(old(mappings), old(data), s)
    }

    /** compact_locked: no sector's contents change, whatever fails. */
    method Compact() returns (rc: Code)
      requires Valid() && !failed
      modifies this`data, this`dataEnd, this`mappings, this`log, this`failed
      ensures Kept() && Outcome(rc)
      ensures rc == Ok ==> !failed && log == mappings && AllBacked(mappings) && |mappings| <= |old(mappings)|
      ensures rc == Ok ==> Slack() == old(Slack())
      ensures (mappings == old(mappings) && log == old(log)) || (log == mappings && |mappings| <= |old(mappings)|)
      ensures dataEnd >= old(dataEnd)
    {
      var staged;
      rc, staged := StageBacking();
      if rc != Ok { return; }
      var c := JoinAll(staged, sectors, dataEnd);
      CompactFacts(mappings, staged, c, sectors, old(dataEnd), dataEnd);
      var ok := ReplaceIndex(c, old(dataEnd));
      rc := if ok then Ok else IoError;
    }

    /** Compacts when the log has reached its threshold. Afterwards one more
        record fits, both under the bound and under the hard limit. */
    method MakeRoom() returns (rc: Code)
      requires Valid() && !failed
      modifies this`data, this`dataEnd, this`mappings, this`log, this`failed
      ensures Kept() && Outcome(rc)
      ensures old(LogBound(log, mappings)) ==> LogBound(log, mappings)
      ensures rc == Ok ==> !failed && Slack() == old(Slack())
      ensures rc == Ok ==> |log| < MAX_LOG_RECORDS && (|log| < 4096 || |log| < 2 * |mappings| + 16)
    {
      var threshold := if 2 * |mappings| + 16 > 4096 then 2 * |mappings| + 16 else 4096;
      if |log| < threshold { return Ok; }
      rc := Compact();
    }

    /** How far a request has come: `done` of its n sectors from `lo` on hold the
        new contents, the rest of the volume what it held. */
    twostate predicate Progress(lo: nat, n: nat, done: nat, buffer: seq<Block>, zero: bool)
      requires zero || |buffer| == n
      requires done <= n
      reads this
    {
      && Valid() && !failed && sectors == old(sectors) && OwnersKept(old(mappings), mappings)
      && Slack() == old(Slack())
      && (old(LogBound(log, mappings)) || done > 0 ==> LogBound(log, mappings))
      && (forall s: int :: lo <= s < lo + done ==>
                ReadAt(mappings, data, s) == if zero then ZERO_BLOCK else buffer[s - lo])
      && (forall s: int :: !(lo <= s < lo + done) ==> ReadAt(mappings, data, s) == ReadAt(old(mappings), old(data), s))
    }

    /** A request that stopped early: nothing outside its range changed. */
    twostate predicate Contained(lo: nat, n: nat)
      reads this
    {
      && Valid() && sectors == old(sectors) && OwnersKept(old(mappings), mappings)
      && (old(LogBound(log, mappings)) ==> LogBound(log, mappings))
      && (forall s: int :: !(lo <= s < lo + n) ==> ReadAt(mappings, data, s) == ReadAt(old(mappings), old(data), s))
    }

    /** Plans and writes the piece at `lo`. */
    method OnePiece(lo: nat, n: nat, buffer: seq<Block>, zero: bool) returns (rc: Code, more: nat)
      requires Valid() && !failed && 0 < n && lo + n <= sectors && (zero || |buffer| == n)
      requires |log| < MAX_LOG_RECORDS && (|log| < 4096 || |log| < 2 * |mappings| + 16)
      modifies this`data, this`dataEnd, this`mappings, this`log, this`failed
      ensures 0 < more <= n && Outcome(rc) && LogBound(log, mappings)
      ensures Valid() && OwnersKept(old(mappings), mappings)
      ensures rc == Ok ==> !failed && Slack() == old(Slack())
      ensures rc == Ok ==> forall s: int :: lo <= s < lo + more ==>
                ReadAt(mappings, data, s) == if zero then ZERO_BLOCK else buffer[s - lo]
      ensures forall s: int :: !(lo <= s < lo + more) ==>
                ReadAt(mappings, data, s) == ReadAt(old(mappings), old(data), s)
    {
      var p := Plan(mappings, sectors, dataEnd, lo, n, zero);
      more := p.length;
      rc := WritePiece(p, if zero then Zeros(more) else buffer[..more]);
    }

    /** One round of modify's loop. The record-limit check before publication can
        never fire: the log has just been compacted or is below the threshold. */
    method Round(lo: nat, n: nat, done: nat, buffer: seq<Block>, zero: bool) returns (rc: Code, more: nat)
      requires Valid() && !failed && done < n && lo + n <= sectors && (zero || |buffer| == n)
      modifies this`data, this`dataEnd, this`mappings, this`log, this`failed
      ensures 0 < more <= n - done && Outcome(rc)
      ensures rc == Ok ==> Progress(lo + done, more, more, if zero then [] else buffer[done..done + more], zero)
      ensures Contained(lo + done, n - done)
    {
      more := n - done;
      rc := MakeRoom();
      if rc != Ok { return; }
      rc, more := OnePiece(lo + done, n - done, if zero then [] else buffer[done..], zero);
    }

    /** The loop over the pieces of a request. */
    method Rounds(lo: nat, n: nat, buffer: seq<Block>, zero: bool) returns (rc: Code)
      requires Valid() && !failed && lo + n <= sectors && (zero || |buffer| == n)
      modifies this`data, this`dataEnd, this`mappings, this`log, this`failed
      ensures Outcome(rc)
      ensures rc == Ok ==> Progress(lo, n, n, buffer, zero)
      ensures Contained(lo, n)
    {
      var done: nat := 0;
      rc := Ok;
      while done < n
        invariant done <= n && rc == Ok
        invariant Progress(lo, n, done, buffer, zero)
      {
        var more;
        rc, more := Round(lo, n, done, buffer, zero);
        if rc != Ok { return; }
        done := done + more;
      }
    }

    /** modify: pwrite, or discard when `zero`. Offsets in bytes. */
    method Modify(buffer: seq<Block>, count: nat, offset: nat, zero: bool) returns (rc: Code)
      requires Valid() && (zero || |buffer| == count / SECTOR)
      modifies this`data, this`dataEnd, this`mappings, this`log, this`failed
      ensures rc == Invalid <==> offset % SECTOR != 0 || count % SECTOR != 0 || offset + count > SECTOR * old(sectors)
      ensures rc != Invalid ==> (rc == Failed <==> old(failed))
      ensures rc != Invalid ==> (rc == ReadOnly <==> !old(failed) && (sealed || checkpointed))
      ensures rc in {Invalid, Failed, ReadOnly} ==> data == old(data) && mappings == old(mappings) && log == old(log)
      ensures rc in {Invalid, Failed, ReadOnly} ==> dataEnd == old(dataEnd)
      ensures rc == Ok ==> Progress(offset / SECTOR, count / SECTOR, count / SECTOR, buffer, zero)
      ensures Contained(offset / SECTOR, count / SECTOR)
    {
      if offset % SECTOR != 0 || count % SECTOR != 0 || offset > SECTOR * sectors || count > SECTOR * sectors - offset {
        return Invalid;
      }
      if failed { return Failed; }
      if sealed || checkpointed { return ReadOnly; }
      rc := Rounds(offset / SECTOR, count / SECTOR, buffer, zero);
    }

    /** pread: zeroes, then each DATA mapping's part read over them. */
    method Pread(count: nat, offset: nat) returns (rc: Code, out: seq<Block>)
      requires Valid()
      ensures rc == Invalid <==> offset % SECTOR != 0 || count % SECTOR != 0
      ensures rc == Failed ==> failed
      ensures rc == Ok ==>
                |out| == if offset >= SECTOR * sectors then 0 else Min(count / SECTOR, sectors - offset / SECTOR)
      ensures rc == Ok ==> forall s: int :: offset / SECTOR <= s < offset / SECTOR + |out| ==>
                out[s - offset / SECTOR] == ReadAt(mappings, data, s)
    {
      out := [];
      if offset % SECTOR != 0 || count % SECTOR != 0 { return Invalid, []; }
      if failed { return Failed, []; }
      if offset >= SECTOR * sectors { return Ok, []; }
      var start := offset / SECTOR;
      rc, out := ReadMapped(mappings, data, sectors, dataEnd, start, start + Min(count / SECTOR, sectors - start));
    }

    /** grow: a larger volume with the same contents. A failed transaction leaves
        the writer closed. */
    method Grow(bytes: nat) returns (rc: Code)
      requires Valid()
      modifies this`sectors, this`failed
      ensures Valid() && forall s: int :: ReadAt(mappings, data, s) == ReadAt(old(mappings), old(data), s)
      ensures rc == Ok ==> sectors == bytes / SECTOR >= old(sectors) && failed == old(failed) && Slack() == old(Slack())
      ensures rc != Ok ==> sectors == old(sectors)
      ensures rc == Failed <==> old(failed)
      ensures rc == ReadOnly <==> !old(failed) && (sealed || checkpointed)
      ensures rc == Invalid <==> !old(failed) && !sealed && !checkpointed && RefusedSize(bytes, old(sectors))
      ensures rc in {Ok, Failed, ReadOnly, Invalid, IoError} && (failed <==> old(failed) || rc == IoError)
      ensures bytes == SECTOR * old(sectors) ==> rc != IoError
    {
      if failed { return Failed; }
      if sealed || checkpointed { return ReadOnly; }
      if RefusedSize(bytes, sectors) { return Invalid; }
      if bytes == SECTOR * sectors { return Ok; }
      var ok: bool := *;
      if !ok {
        failed := true;
        return IoError;
      }
      GrowGood(mappings, log, sectors, bytes / SECTOR, dataEnd);
      sectors := bytes / SECTOR;
      rc := Ok;
    }

    /** seal: compacts and then runs the pair's transaction, which may fail and then
        closes the writer. No sector changes contents. On success the log is the
        compacted index, every mapping backed. */
    method Seal(tagBytes: nat) returns (rc: Code)
      requires Valid()
      modifies this`data, this`dataEnd, this`mappings, this`log, this`failed, this`sealed
      ensures Kept()
      ensures rc == Invalid <==> tagBytes >= 256
      ensures rc == Failed <==> tagBytes < 256 && old(failed)
      ensures rc == Already <==> tagBytes < 256 && !old(failed) && old(sealed)
      ensures rc == ReadOnly <==> tagBytes < 256 && !old(failed) && !old(sealed) && checkpointed
      ensures sealed <==> old(sealed) || rc == Ok
      ensures rc == Ok ==> !failed && log == mappings && AllBacked(mappings)
    {
      if tagBytes >= 256 { return Invalid; }
      if failed { return Failed; }
      if sealed { return Already; }
      if checkpointed { return ReadOnly; }
      rc := Compact();
      if rc != Ok { return; }
      var ok: bool := *;
      if !ok {
        failed := true;
        return IoError;
      }
      sealed := true;
    }

    /** The volume as a plain sector array. */
    ghost function Contents(): seq<Block>
      reads this
    {
      Image(mappings, data, sectors)
    }

    /** pwrite of whole sectors. */
    method Pwrite(at: nat, blocks: seq<Block>) returns (rc: Code)
      requires Valid()
      modifies this`data, this`dataEnd, this`mappings, this`log, this`failed
      ensures Valid()
      ensures rc == Ok ==> !failed && at + |blocks| <= sectors && Contents() == Splice(old(Contents()), at, blocks)
      ensures rc == Ok ==> Slack() == old(Slack())
    {
      WholeSectors(at);
      WholeSectors(|blocks|);
      rc := Modify(blocks, SECTOR * |blocks|, SECTOR * at, false);
      if rc == Ok { ImageIsSplice(old(mappings), old(data), mappings, data, sectors, at, blocks); }
    }

    method Discard(at: nat, count: nat) returns (rc: Code)
      requires Valid()
      modifies this`data, this`dataEnd, this`mappings, this`log, this`failed
      ensures Valid()
      ensures rc == Ok ==> !failed && at + count <= sectors && Contents() == Splice(old(Contents()), at, Zeros(count))
      ensures rc == Ok ==> Slack() == old(Slack())
    {
      WholeSectors(at);
      WholeSectors(count);
      rc := Modify([], SECTOR * count, SECTOR * at, true);
      if rc == Ok { ImageIsSplice(old(mappings), old(data), mappings, data, sectors, at, Zeros(count)); }
    }

    method Resize(to: nat) returns (rc: Code)
      requires Valid()
      modifies this`sectors, this`failed
      ensures Valid()
      ensures rc == Ok ==> failed == old(failed) && old(sectors) <= to
      ensures rc == Ok ==> Contents() == old(Contents()) + Zeros(to - old(sectors)) && Slack() == old(Slack())
    {
      WholeSectors(to);
      rc := Grow(SECTOR * to);
      if rc == Ok { ImageGrows(mappings, data, old(sectors), to, dataEnd); }
    }

    /** Reopening after the process ends: replay accepts the log as it is on
        disk, and every sector reads back as it did. */
    method Reopen() returns (l: seq<Mapping>)
      requires Valid() && !failed
      ensures Good(l, log, sectors, dataEnd)
      ensures forall s: int :: ReadAt(l, data, s) == ReadAt(mappings, data, s)
    {
      LogReplays(mappings, log, sectors, dataEnd);
      var r := Replay(log, sectors, |data|);
      l := r.value;
      OpenGood(log, sectors, dataEnd);
    }
  }

  lemma {:induction false} ImageGrows(l: seq<Mapping>, data: seq<Block>, n: nat, to: nat, dataEnd: nat)
    requires MapOk(l, n, dataEnd) && n <= to
    ensures Image(l, data, to) == Image(l, data, n) + Zeros(to - n)
  {
    forall s: int | n <= s < to
      ensures ReadAt(l, data, s) == ZERO_BLOCK
    {
      ResolveOutside(l, 0, n, s);
    }
  }

  /** One operation does to the writer's contents what it does to the array. */
  method Perform(w: Writer, op: Op) returns (ok: bool)
    requires w.Valid() && !w.failed
    modifies w
    ensures w.Valid()
    ensures ok ==> !w.failed && Admits(old(w.Contents()), op) && w.Contents() == Step(old(w.Contents()), op)
    ensures ok ==> w.Slack() == old(w.Slack())
  {
    var rc;
    match op {
      case Write(at, blocks) => rc := w.Pwrite(at, blocks);
      case Discard(at, count) => rc := w.Discard(at, count);
      case Compaction => rc := w.Compact();
      case Resize(to) => rc := w.Resize(to);
    }
    ok := rc == Ok;
  }

  /** A run on the writer refines the same run on a plain sector array, and
      payload grows by exactly the sectors that became owned. Stops at the first
      operation that does not succeed. */
  method Drive(w: Writer, ops: seq<Op>) returns (done: nat)
    requires w.Valid() && !w.failed
    modifies w
    ensures done <= |ops| && w.Valid()
    ensures done == |ops| ==> !w.failed && RunOf(old(w.Contents()), ops) == Some(w.Contents())
    ensures done == |ops| ==> w.Slack() == old(w.Slack())
  {
    done := 0;
    while done < |ops|
      invariant done <= |ops| && w.Valid() && !w.failed && w.Slack() == old(w.Slack())
      invariant RunOf(old(w.Contents()), ops[..done]) == Some(w.Contents())
    {
      var ok := Perform(w, ops[done]);
      if !ok { return; }
      assert ops[..done + 1][..done] == ops[..done];
      done := done + 1;
    }
    assert ops[..done] == ops;
  }

  lemma {:induction false} GrowGood(l: seq<Mapping>, log: seq<Mapping>, sectors: nat, more: nat, dataEnd: nat)
    requires Sound(l, sectors, dataEnd) && LogOk(log, l, sectors, dataEnd) && sectors <= more <= MAX_OFFSET
    ensures Sound(l, more, dataEnd) && LogOk(log, l, more, dataEnd) && Owned(l, more) == Owned(l, sectors)
  {
    AcceptableMore(log, sectors, dataEnd, more, dataEnd);
    forall s: int
      ensures Owner(l, s).Some? ==> 0 <= s < sectors
    {
      DataIsOwned(l, sectors, dataEnd, s);
    }
  }

  /** What the first k mappings say about [start, end). */
  ghost predicate ReadTo(out: seq<Block>, l: seq<Mapping>, k: nat, data: seq<Block>, start: nat, end: nat)
    requires k <= |l|
  {
    |out| == end - start && forall s: int :: start <= s < end ==> out[s - start] == ReadAt(l[..k], data, s)
  }

  lemma {:induction false} ReadStep(before: seq<Block>, out: seq<Block>, l: seq<Mapping>, k: nat, data: seq<Block>,
                                    start: nat, end: nat)
    requires Index(l) && k < |l| && l[k].offset < end && ReadTo(before, l, k, data, start, end)
    requires !l[k].zeroed ==> l[k].moffset + l[k].length <= |data|
    requires if l[k].End() > start && !l[k].zeroed
             then var first, last := if l[k].offset > start then l[k].offset else start, Min(end, l[k].End());
                  var base := l[k].moffset - l[k].offset;
                  out == PutBlocks(before, first - start, data[base + first..base + last])
             else out == before
    ensures ReadTo(out, l, k + 1, data, start, end)
  {
    var m, next := l[k], l[..k + 1];
    forall s: int | start <= s < end
      ensures out[s - start] == ReadAt(next, data, s)
    {
      assert before[s - start] == ReadAt(l[..k], data, s);
      assert next == l[..k] + [m];
      ResolveLast(l[..k], m, s);
      if m.Covers(s) { ResolveTake(l, k, s); }
    }
  }

  /** The loop of pread: starts from zeroes and overlays each DATA mapping. */
  method ReadMapped(l: seq<Mapping>, data: seq<Block>, ghost sectors: nat, ghost dataEnd: nat, start: nat, end: nat)
    returns (rc: Code, out: seq<Block>)
    requires MapOk(l, sectors, dataEnd) && dataEnd <= |data| && dataEnd <= MAX_FILE_SECTORS && start <= end
    ensures rc in {Ok, IoError}
    ensures rc == Ok ==> |out| == end - start && forall s: int :: start <= s < end ==>
              out[s - start] == ReadAt(l, data, s)
  {
    out := Zeros(end - start);
    rc := Ok;
    var k: nat := 0;
    while k < |l|
      invariant k <= |l| && ReadTo(out, l, k, data, start, end)
    {
      var m := l[k];
      if m.offset >= end {
        forall s: int | start <= s < end
          ensures ReadAt(l, data, s) == ReadAt(l[..k], data, s)
        {
          ResolveTake(l, k, s);
        }
        return;
      }
      ghost var before := out;
      if m.End() > start && !m.zeroed {
        var failed: bool := *;
        if failed { return IoError, []; }
        var first, last := if m.offset > start then m.offset else start, Min(end, m.End());
        out := PutBlocks(out, first - start, data[m.moffset + (first - m.offset)..m.moffset + (last - m.offset)]);
      }
      ReadStep(before, out, l, k, data, start, end);
      k := k + 1;
    }
    assert l[..k] == l;
  }

  /** Joins neighbours that are contiguous logically and physically. */
  method JoinAll(staged: seq<Mapping>, ghost sectors: nat, ghost dataEnd: nat) returns (c: seq<Mapping>)
    requires MapOk(staged, sectors, dataEnd) && AllBacked(staged) && sectors <= MAX_OFFSET
    ensures JoinedTo(c, staged, |staged|, dataEnd)
  {
    c := [];
    var i: nat := 0;
    while i < |staged|
      invariant i <= |staged| && JoinedTo(c, staged, i, dataEnd)
    {
      JoinStep(c, staged, i, sectors, dataEnd);
      c := Join(c, staged[i]);
      i := i + 1;
    }
  }

  /** `staged` is `l` with some ZERO mappings given the payload between the two
      ends: shape and owners kept, payload conserved. */
  ghost predicate Restaged(l: seq<Mapping>, staged: seq<Mapping>, sectors: nat, end0: nat, end: nat) {
    && Sound(staged, sectors, end) && SameShape(l, staged) && OwnersKept(l, staged)
    && end - |Owned(staged, sectors)| == end0 - |Owned(l, sectors)|
  }

  lemma {:induction false} RestageStep(l: seq<Mapping>, staged: seq<Mapping>, k: nat, sectors: nat, end0: nat, end: nat)
    requires Restaged(l, staged, sectors, end0, end) && k < |staged| && staged[k].moffset == NO_PHYSICAL
    requires end + staged[k].length <= MAX_FILE_SECTORS
    ensures Restaged(l, Back(staged, k, end), sectors, end0, end + staged[k].length)
  {
    BackKeeps(staged, k, sectors, end);
  }

  /** Appending to the payload changes no sector's contents. */
  lemma {:induction false} ReadKept(l: seq<Mapping>, sectors: nat, dataEnd: nat, before: seq<Block>, after: seq<Block>)
    requires MapOk(l, sectors, dataEnd) && dataEnd <= MAX_FILE_SECTORS && dataEnd <= |before| <= |after|
    requires forall i :: 0 <= i < dataEnd ==> after[i] == before[i]
    ensures forall s: int :: ReadAt(l, after, s) == ReadAt(l, before, s)
  {
    forall s: int
      ensures ReadAt(l, after, s) == ReadAt(l, before, s)
    {
      DataIsOwned(l, sectors, dataEnd, s);
    }
  }

  lemma {:induction false} GoodMore(l: seq<Mapping>, log: seq<Mapping>, sectors: nat, dataEnd: nat, more: nat)
    requires Sound(l, sectors, dataEnd) && LogOk(log, l, sectors, dataEnd) && dataEnd <= more <= MAX_FILE_SECTORS
    ensures Sound(l, sectors, more) && LogOk(log, l, sectors, more)
  {
    AcceptableMore(log, sectors, dataEnd, sectors, more);
  }

  /** `c` is a compacted form of `l`: it is its own log, keeps contents and
      owners, backs everything and conserves payload. */
  ghost predicate Compacted(l: seq<Mapping>, c: seq<Mapping>, sectors: nat, end0: nat, end: nat) {
    && Sound(c, sectors, end) && AllBacked(c) && LogOk(c, c, sectors, end) && |c| <= |l| && OwnersKept(l, c)
    && end - |Owned(c, sectors)| == end0 - |Owned(l, sectors)|
    && (forall s: int :: Resolve(c, s) == Resolve(l, s))
  }

  lemma {:induction false} CompactFacts(l: seq<Mapping>, staged: seq<Mapping>, c: seq<Mapping>, sectors: nat,
                                        end0: nat, end: nat)
    requires Restaged(l, staged, sectors, end0, end) && AllBacked(staged) && JoinedTo(c, staged, |staged|, end)
    ensures Compacted(l, c, sectors, end0, end)
  {
    assert staged[..|staged|] == staged;
    forall s: int
      ensures Resolve(c, s) == Resolve(l, s) && Owner(c, s) == Owner(staged, s)
    {
      SameShapeMeaning(l, staged, s);
    }
    JoinedWithin(c, staged, sectors, end);
    assert Owned(c, sectors) == Owned(staged, sectors);
    CompactGood(c, sectors, end);
  }

  lemma {:induction false} JoinedWithin(c: seq<Mapping>, staged: seq<Mapping>, sectors: nat, end: nat)
    requires Sound(staged, sectors, end) && JoinedTo(c, staged, |staged|, end)
    ensures MapOk(c, sectors, end) && Injective(c)
  {
    assert staged[..|staged|] == staged;
    forall i | 0 <= i < |c|
      ensures c[i].End() <= sectors
    {
      ResolveAt(c, i, c[i].End() - 1);
      if c[i].End() > sectors { ResolveOutside(staged, 0, sectors, c[i].End() - 1); }
    }
  }
}
