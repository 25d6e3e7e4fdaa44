/** The Hybrid pair's grow and seal transactions: an intent, then writes that may
    stop anywhere, and recovery that ends with the same bytes. */
module HybridTransaction {
  import opened Segments
  import opened SectorArray
  import opened Codec
  import opened HybridReplay
  import LsmtFile

  const HYBRID_FLAG: nat := 32

  /** A published intent. `log` is what the index checksum stands for. */
  datatype Intent = Intent(grow: bool, dataBytes: nat, log: Bytes, oldData: Bytes, oldIndex: Bytes, target: Bytes)

  predicate HeadersOk(dataHeader: Bytes, indexHeader: Bytes, dataBytes: nat, indexBytes: nat) {
    && |dataHeader| == |indexHeader| == SPACE && Parse(dataHeader).Some? && Parse(indexHeader).Some?
    && PairOk(HYBRID_FLAG, Parse(dataHeader).value, Parse(indexHeader).value, dataBytes, indexBytes)
  }

  /** Every byte is the old one or the target's. */
  ghost predicate AllowedHeader(current: Bytes, prior: Bytes, target: Bytes)
    requires |current| == |prior| == |target|
  {
    forall i :: 0 <= i < |current| ==> current[i] == prior[i] || current[i] == target[i]
  }

  function TrailerOffset(t: Intent): nat { PadBytes(t.dataBytes + |t.log|) }

  /** The trailer a seal writes: the data header with the sealed flags, the
      index position and the caller's tag. */
  function SealHeader(prior: Header, t: Intent, userTag: Bytes): Header {
    prior.(flags := HYBRID_FLAG + 6, indexOffset := t.dataBytes, indexSize := |t.log| / 16, userTag := userTag)
  }

  /** Records in order, not overlapping, untagged and backed. */
  ghost predicate Canonical(r: seq<Mapping>) {
    && (forall i :: 0 <= i < |r| ==> r[i].length > 0 && r[i].tag == 0 && r[i].moffset != NO_PHYSICAL)
    && (forall i :: 0 < i < |r| ==> r[i - 1].End() <= r[i].offset)
  }

  ghost predicate Sealable(r: seq<Mapping>, sectors: nat, dataSectors: nat) {
    && Canonical(r) && Acceptable(r, sectors, dataSectors) && !Alias(Live(r))
    && (forall i :: 0 <= i < |Normalized(Live(r), dataSectors)| ==>
              Normalized(Live(r), dataSectors)[i].moffset != NO_PHYSICAL)
  }

  /** The sizes every intent record has. */
  predicate Shaped(t: Intent) {
    |t.oldData| == |t.oldIndex| == |t.target| == SPACE && t.dataBytes >= SPACE
  }

  /** The index header a grow ends with. */
  function GrownIndex(t: Intent): (r: Bytes)
    requires Shaped(t)
    ensures |r| == SPACE
  {
    WithCapacity(t.oldIndex, LoadLe(t.target[48..56]))
  }

  ghost predicate GrowIntent(t: Intent)
    requires Shaped(t) && Parse(t.oldData).Some? && Parse(t.target).Some?
  {
    var size := Parse(t.target).value.virtualSize;
    size > Parse(t.oldData).value.virtualSize && CapacityOk(size) && WithCapacity(t.oldData, size) == t.target
  }

  ghost predicate SealIntent(t: Intent)
    requires Shaped(t) && Parse(t.oldData).Some? && Parse(t.target).Some? && |t.log| % 16 == 0
  {
    var header := SealHeader(Parse(t.oldData).value, t, Parse(t.target).value.userTag);
    && |t.log| / 16 <= MAX_INDEX && Storable(header) && Serialize(header) == t.target
    && t.dataBytes + |t.log| + 2 * SPACE <= MAX_FILE
    && Sealable(DecodeAll(t.log), Parse(t.oldData).value.virtualSize / SECTOR, t.dataBytes / SECTOR)
  }

  /** The record describes a grow or a seal of the pair it was made for. */
  ghost predicate IntentOk(t: Intent) {
    && Shaped(t) && HeadersOk(t.oldData, t.oldIndex, t.dataBytes, SPACE + |t.log|) && Parse(t.target).Some?
    && (if t.grow then GrowIntent(t) else SealIntent(t))
  }

  /** The files are that pair, with the transaction's writes done in part. */
  ghost predicate FilesOk(t: Intent, data: Bytes, index: Bytes)
    requires Shaped(t)
  {
    && |data| >= t.dataBytes && |index| >= SPACE && index[SPACE..] == t.log
    && (if t.grow
        then && |data| == t.dataBytes && AllowedHeader(data[..SPACE], t.oldData, t.target)
             && AllowedHeader(index[..SPACE], t.oldIndex, GrownIndex(t))
        else data[..SPACE] == t.oldData && index[..SPACE] == t.oldIndex && |data| <= TrailerOffset(t) + SPACE)
  }

  /** What validate lets through. */
  ghost predicate Accepts(t: Intent, data: Bytes, index: Bytes) {
    IntentOk(t) && FilesOk(t, data, index)
  }

  // ----- validate -----------------------------------------------------------------

  method CheckAllowed(current: Bytes, prior: Bytes, target: Bytes) returns (ok: bool)
    requires |current| == |prior| == |target|
    ensures ok <==> AllowedHeader(current, prior, target)
  {
    var i: nat := 0;
    while i < |current|
      invariant i <= |current| && forall k :: 0 <= k < i ==> current[k] == prior[k] || current[k] == target[k]
    {
      if current[i] != prior[i] && current[i] != target[i] { return false; }
      i := i + 1;
    }
    ok := true;
  }

  method CheckSealable(r: seq<Mapping>, sectors: nat, dataSectors: nat) returns (ok: bool)
    requires |r| <= MAX_LOG_RECORDS && dataSectors < NO_PHYSICAL
    ensures ok <==> Sealable(r, sectors, dataSectors)
  {
    var end: nat := 0;
    var i: nat := 0;
    while i < |r|
      invariant i <= |r| && end == (if i == 0 then 0 else r[i - 1].End())
      invariant forall k :: 0 <= k < i ==> r[k].length > 0 && r[k].tag == 0 && r[k].moffset != NO_PHYSICAL
      invariant forall k :: 0 < k < i ==> r[k - 1].End() <= r[k].offset
    {
      if r[i].length == 0 || r[i].offset < end || r[i].tag != 0 || r[i].moffset == NO_PHYSICAL { return false; }
      end := r[i].End();
      i := i + 1;
    }
    var live := Replay(r, sectors, dataSectors);
    if live.None? { return false; }
    i := 0;
    while i < |live.value|
      invariant i <= |live.value| && forall k :: 0 <= k < i ==> live.value[k].moffset != NO_PHYSICAL
    {
      if live.value[i].moffset == NO_PHYSICAL { return false; }
      i := i + 1;
    }
    ok := true;
  }

  method CheckSeal(t: Intent) returns (ok: bool)
    requires Shaped(t) && Parse(t.oldData).Some? && Parse(t.target).Some? && |t.log| % 16 == 0
    requires t.dataBytes / SECTOR < NO_PHYSICAL
    ensures ok <==> SealIntent(t)
  {
    var header := SealHeader(Parse(t.oldData).value, t, Parse(t.target).value.userTag);
    if |t.log| / 16 > MAX_INDEX || t.dataBytes + |t.log| + 2 * SPACE > MAX_FILE || !Storable(header) { return false; }
    if Serialize(header) != t.target { return false; }
    ok := CheckSealable(DecodeAll(t.log), Parse(t.oldData).value.virtualSize / SECTOR, t.dataBytes / SECTOR);
  }

  method CheckIntent(t: Intent) returns (ok: bool)
    requires Shaped(t)
    ensures ok <==> IntentOk(t)
  {
    if !HeadersOk(t.oldData, t.oldIndex, t.dataBytes, SPACE + |t.log|) || Parse(t.target).None? { return false; }
    if t.grow {
      var size := Parse(t.target).value.virtualSize;
      ok := size > Parse(t.oldData).value.virtualSize && CapacityOk(size) && WithCapacity(t.oldData, size) == t.target;
    } else {
      ok := CheckSeal(t);
    }
  }

  method CheckFiles(t: Intent, data: Bytes, index: Bytes) returns (ok: bool)
    requires Shaped(t)
    ensures ok <==> FilesOk(t, data, index)
  {
    if |data| < t.dataBytes || |index| < SPACE || index[SPACE..] != t.log { return false; }
    if t.grow {
      if |data| != t.dataBytes { return false; }
      ok := CheckAllowed(data[..SPACE], t.oldData, t.target);
      if ok { ok := CheckAllowed(index[..SPACE], t.oldIndex, GrownIndex(t)); }
    } else {
      ok := data[..SPACE] == t.oldData && index[..SPACE] == t.oldIndex && |data| <= TrailerOffset(t) + SPACE;
    }
  }

  /** validate: lets an intent proceed exactly when the pair is in a state the
      transaction can have left. */
  method Validate(t: Intent, data: Bytes, index: Bytes) returns (ok: bool)
    requires Shaped(t)
    ensures ok <==> Accepts(t, data, index)
  {
    ok := CheckIntent(t);
    if ok { ok := CheckFiles(t, data, index); }
  }

  // ----- finish -------------------------------------------------------------------

  /** A write call. */
  datatype Patch = Patch(toData: bool, offset: nat, bytes: Bytes)

  function Put(f: Bytes, offset: nat, b: Bytes): (r: Bytes)
    requires offset <= |f|
    ensures |r| == if offset + |b| > |f| then offset + |b| else |f|
  {
    f[..offset] + b + if offset + |b| < |f| then f[offset + |b|..] else []
  }

  /** The pair every run of the transaction ends with. */
  function FinalData(t: Intent, data: Bytes): Bytes
    requires Shaped(t) && |data| >= t.dataBytes
  {
    if t.grow then t.target + data[SPACE..]
    else data[..t.dataBytes] + t.log + ZeroBytes(TrailerOffset(t) - t.dataBytes - |t.log|) + t.target
  }

  function FinalIndex(t: Intent, index: Bytes): Bytes
    requires Shaped(t) && |index| >= SPACE
  {
    if t.grow then GrownIndex(t) + index[SPACE..] else index
  }

  /** Only the header of either file on a grow, only the tail on a seal. */
  predicate WriteOk(t: Intent, w: Patch)
    requires Shaped(t)
  {
    if t.grow
    then w.offset == 0 && w.bytes == if w.toData then t.target else GrownIndex(t)
    else w.toData && t.dataBytes <= w.offset && w.offset + |w.bytes| <= TrailerOffset(t) + SPACE
  }

  ghost predicate WritesOk(t: Intent, ws: seq<Patch>)
    requires Shaped(t)
  {
    forall k :: 0 <= k < |ws| ==> WriteOk(t, ws[k])
  }

  /** The log copied behind the payload in chunks. */
  method CopyLog(t: Intent, data: Bytes, index: Bytes) returns (r: Bytes, ghost ws: seq<Patch>)
    requires Shaped(t) && !t.grow
    requires t.dataBytes <= |data| <= TrailerOffset(t) + SPACE && |index| >= SPACE && index[SPACE..] == t.log
    ensures WritesOk(t, ws) && |r| <= TrailerOffset(t) + SPACE
    ensures |r| >= t.dataBytes + |t.log| && r[..t.dataBytes + |t.log|] == data[..t.dataBytes] + t.log
  {
    r, ws := data, [];
    var done: nat := 0;
    while done < |t.log|
      invariant done <= |t.log| && t.dataBytes + done <= |r| <= TrailerOffset(t) + SPACE && WritesOk(t, ws)
      invariant r[..t.dataBytes + done] == data[..t.dataBytes] + t.log[..done]
    {
      var size := if |t.log| - done < 65536 then |t.log| - done else 65536;
      var chunk := index[SPACE + done..SPACE + done + size];
      LogSlice(index, t.log, done, size);
      CopyStep(r, data[..t.dataBytes], t.log, t.dataBytes, done, size);
      ws := ws + [Patch(true, t.dataBytes + done, chunk)];
      r := Put(r, t.dataBytes + done, chunk);
      done := done + size;
    }
    assert t.log[..done] == t.log;
  }

  lemma {:induction false} LogSlice(index: Bytes, log: Bytes, at: nat, size: nat)
    requires |index| >= SPACE && index[SPACE..] == log && at + size <= |log|
    ensures index[SPACE + at..SPACE + at + size] == log[at..at + size]
  {
    var a, b := index[SPACE + at..SPACE + at + size], log[at..at + size];
    forall k | 0 <= k < size
      ensures a[k] == b[k]
    {
    }
  }

  lemma {:induction false} CopyStep(r: Bytes, head: Bytes, log: Bytes, at: nat, done: nat, size: nat)
    requires |head| == at && done + size <= |log| && at + done <= |r| && r[..at + done] == head + log[..done]
    ensures Put(r, at + done, log[done..done + size])[..at + done + size] == head + log[..done + size]
  {
    assert log[..done] + log[done..done + size] == log[..done + size];
    assert Put(r, at + done, log[done..done + size])[..at + done + size] == r[..at + done] + log[done..done + size];
  }

  method FinishGrow(t: Intent, data: Bytes, index: Bytes) returns (data': Bytes, index': Bytes, ghost ws: seq<Patch>)
    requires t.grow && Shaped(t) && |index| >= SPACE && |data| >= t.dataBytes
    ensures data' == FinalData(t, data) && index' == FinalIndex(t, index) && WritesOk(t, ws)
  {
    data', index' := Put(data, 0, t.target), Put(index, 0, GrownIndex(t));
    ws := [Patch(true, 0, t.target), Patch(false, 0, GrownIndex(t))];
  }

  method FinishSeal(t: Intent, data: Bytes, index: Bytes) returns (data': Bytes, ghost ws: seq<Patch>)
    requires !t.grow && Shaped(t) && |index| >= SPACE && index[SPACE..] == t.log
    requires t.dataBytes <= |data| <= TrailerOffset(t) + SPACE
    ensures data' == FinalData(t, data) && WritesOk(t, ws)
  {
    data', ws := CopyLog(t, data, index);
    var trailer := TrailerOffset(t);
    var at := t.dataBytes + |t.log|;
    var padding := ZeroBytes(trailer - at);
    ghost var copied := data';
    if padding != [] {
      ws := ws + [Patch(true, at, padding)];
      data' := Put(data', at, padding);
    }
    assert data'[..trailer] == copied[..at] + padding;
    ws := ws + [Patch(true, trailer, t.target)];
    data' := Put(data', trailer, t.target);
  }

  /** finish up to retiring the intent, and the writes it issued. */
  method Finish(t: Intent, data: Bytes, index: Bytes) returns (data': Bytes, index': Bytes, ghost ws: seq<Patch>)
    requires Shaped(t) && FilesOk(t, data, index)
    ensures data' == FinalData(t, data) && index' == FinalIndex(t, index) && WritesOk(t, ws)
  {
    index' := index;
    if t.grow { data', index', ws := FinishGrow(t, data, index); } else { data', ws := FinishSeal(t, data, index); }
  }

  // ----- interruption ---------------------------------------------------------------

  /** A byte of a file after some of the writes, or parts of them, persisted: the
      old byte, a written one, or anything where a write extended the file. */
  ghost predicate ByteFrom(before: Bytes, ws: seq<Patch>, toData: bool, i: nat, x: Byte) {
    || (i < |before| && x == before[i])
    || exists k :: 0 <= k < |ws| && ws[k].toData == toData && Reaches(ws[k], |before|, i, x)
  }

  predicate Reaches(w: Patch, size: nat, i: nat, x: Byte) {
    || (w.offset <= i < w.offset + |w.bytes| && x == w.bytes[i - w.offset])
    || (size <= i < w.offset + |w.bytes|)
  }

  function OldHeader(t: Intent, ofData: bool): Bytes { if ofData then t.oldData else t.oldIndex }

  /** A power loss may also take back what an earlier, unsynced attempt had
      written: a header byte returns to the intent's old one, and past the synced
      payload anything may be found, down to nothing. */
  ghost predicate FellBack(t: Intent, size: nat, toData: bool, i: nat, x: Byte)
    requires Shaped(t)
  {
    || (i < SPACE && x == OldHeader(t, toData)[i])
    || (toData && t.dataBytes <= i < size)
  }

  /** The process or the machine stopped while the writes were being issued. */
  ghost predicate Persisted(t: Intent, before: Bytes, ws: seq<Patch>, toData: bool, after: Bytes)
    requires Shaped(t)
  {
    && (if toData then t.dataBytes else |before|) <= |after|
    && forall i: nat :: i < |after| ==>
              ByteFrom(before, ws, toData, i, after[i]) || FellBack(t, |before|, toData, i, after[i])
  }

  /** On a grow nothing but the header's bytes can differ, each old or target. */
  lemma {:induction false} HeaderOnly(t: Intent, before: Bytes, ws: seq<Patch>, toData: bool, after: Bytes,
                                      header: Bytes)
    requires Shaped(t) && |before| >= SPACE == |header| && Persisted(t, before, ws, toData, after)
    requires (toData ==> |before| == t.dataBytes)
    requires forall k :: 0 <= k < |ws| && ws[k].toData == toData ==> ws[k].offset == 0 && ws[k].bytes == header
    ensures |after| == |before| && after[SPACE..] == before[SPACE..]
    ensures forall i :: 0 <= i < SPACE ==> after[i] in {before[i], header[i], OldHeader(t, toData)[i]}
  {
    if |after| > 0 {
      var i := |after| - 1;
      assert ByteFrom(before, ws, toData, i, after[i]) || FellBack(t, |before|, toData, i, after[i]);
    }
    forall i: nat | SPACE <= i < |after|
      ensures after[i] == before[i]
    {
      assert ByteFrom(before, ws, toData, i, after[i]) || FellBack(t, |before|, toData, i, after[i]);
    }
    forall i: nat | i < SPACE
      ensures after[i] in {before[i], header[i], OldHeader(t, toData)[i]}
    {
      assert ByteFrom(before, ws, toData, i, after[i]) || FellBack(t, |before|, toData, i, after[i]);
    }
  }

  lemma {:induction false} GrowInterrupted(t: Intent, data: Bytes, index: Bytes, ws: seq<Patch>, data': Bytes,
                                           index': Bytes)
    requires Shaped(t) && t.grow && FilesOk(t, data, index) && WritesOk(t, ws)
    requires Persisted(t, data, ws, true, data') && Persisted(t, index, ws, false, index')
    ensures FilesOk(t, data', index') && FinalData(t, data') == FinalData(t, data)
    ensures FinalIndex(t, index') == FinalIndex(t, index)
  {
    HeaderOnly(t, data, ws, true, data', t.target);
    HeaderOnly(t, index, ws, false, index', GrownIndex(t));
    assert forall i :: 0 <= i < SPACE ==> data[..SPACE][i] == data[i] && index[..SPACE][i] == index[i];
  }

  /** On a seal nothing before the tail can differ. */
  lemma {:induction false} TailOnly(t: Intent, data: Bytes, ws: seq<Patch>, after: Bytes, limit: nat)
    requires Shaped(t) && t.dataBytes <= |data| <= limit && data[..SPACE] == t.oldData
    requires Persisted(t, data, ws, true, after)
    requires forall k :: 0 <= k < |ws| && ws[k].toData ==>
              t.dataBytes <= ws[k].offset && ws[k].offset + |ws[k].bytes| <= limit
    ensures t.dataBytes <= |after| <= limit && after[..t.dataBytes] == data[..t.dataBytes]
  {
    if |after| > 0 {
      var i := |after| - 1;
      assert ByteFrom(data, ws, true, i, after[i]) || FellBack(t, |data|, true, i, after[i]);
    }
    assert forall i :: 0 <= i < SPACE ==> data[..SPACE][i] == data[i];
    forall i: nat | i < t.dataBytes
      ensures after[i] == data[i]
    {
      assert ByteFrom(data, ws, true, i, after[i]) || FellBack(t, |data|, true, i, after[i]);
    }
  }

  lemma {:induction false} Untouched(t: Intent, index: Bytes, ws: seq<Patch>, after: Bytes)
    requires Shaped(t) && |index| >= SPACE && index[..SPACE] == t.oldIndex
    requires Persisted(t, index, ws, false, after) && forall k :: 0 <= k < |ws| ==> ws[k].toData
    ensures after == index
  {
    if |after| > 0 {
      var i := |after| - 1;
      assert ByteFrom(index, ws, false, i, after[i]) || FellBack(t, |index|, false, i, after[i]);
    }
    assert forall i :: 0 <= i < SPACE ==> index[..SPACE][i] == index[i];
    forall i: nat | i < |index|
      ensures after[i] == index[i]
    {
      assert ByteFrom(index, ws, false, i, after[i]) || FellBack(t, |index|, false, i, after[i]);
    }
  }

  lemma {:induction false} SealInterrupted(t: Intent, data: Bytes, index: Bytes, ws: seq<Patch>, data': Bytes,
                                           index': Bytes)
    requires Shaped(t) && !t.grow && FilesOk(t, data, index) && WritesOk(t, ws)
    requires Persisted(t, data, ws, true, data') && Persisted(t, index, ws, false, index')
    ensures FilesOk(t, data', index') && FinalData(t, data') == FinalData(t, data)
    ensures FinalIndex(t, index') == FinalIndex(t, index)
  {
    TailOnly(t, data, ws, data', TrailerOffset(t) + SPACE);
    Untouched(t, index, ws, index');
    assert data'[..SPACE] == data'[..t.dataBytes][..SPACE] && data[..SPACE] == data[..t.dataBytes][..SPACE];
  }

  /** A pair of files. */
  datatype Files = Files(data: Bytes, index: Bytes)

  /** One attempt that stopped somewhere. */
  ghost predicate Attempt(t: Intent, before: Files, after: Files)
    requires Shaped(t)
  {
    exists ws ::
      && WritesOk(t, ws)
      && Persisted(t, before.data, ws, true, after.data) && Persisted(t, before.index, ws, false, after.index)
  }

  /** However often recovery is interrupted, wherever each time, the pair stays
      acceptable to the intent and still leads to the same final bytes. */
  lemma {:induction false} AnyRunConverges(t: Intent, run: seq<Files>)
    requires Shaped(t) && |run| > 0 && FilesOk(t, run[0].data, run[0].index)
    requires forall n :: 0 < n < |run| ==> Attempt(t, run[n - 1], run[n])
    ensures var last := run[|run| - 1];
      FilesOk(t, last.data, last.index)
      && FinalData(t, last.data) == FinalData(t, run[0].data)
      && FinalIndex(t, last.index) == FinalIndex(t, run[0].index)
  {
    if |run| > 1 {
      AnyRunConverges(t, run[..|run| - 1]);
      var a, b := run[|run| - 2], run[|run| - 1];
      assert Attempt(t, a, b);
      var ws :| WritesOk(t, ws) && Persisted(t, a.data, ws, true, b.data) && Persisted(t, a.index, ws, false, b.index);
      if t.grow {
        GrowInterrupted(t, a.data, a.index, ws, b.data, b.index);
      } else {
        SealInterrupted(t, a.data, a.index, ws, b.data, b.index);
      }
    }
  }

  /** The finished pair is itself acceptable: retiring the intent may be lost and
      the whole transaction repeated. */
  lemma {:induction false} FinishedIsAccepted(t: Intent, data: Bytes, index: Bytes)
    requires Shaped(t) && FilesOk(t, data, index)
    ensures FilesOk(t, FinalData(t, data), FinalIndex(t, index))
    ensures FinalData(t, FinalData(t, data)) == FinalData(t, data)
    ensures FinalIndex(t, FinalIndex(t, index)) == FinalIndex(t, index)
  {
    if t.grow {
      var f, g := FinalData(t, data), FinalIndex(t, index);
      assert f[..SPACE] == t.target && f[SPACE..] == data[SPACE..];
      assert g[..SPACE] == GrownIndex(t) && g[SPACE..] == index[SPACE..];
    } else {
      var f := FinalData(t, data);
      assert f[..t.dataBytes] == data[..t.dataBytes];
      assert f[..SPACE] == f[..t.dataBytes][..SPACE] && data[..SPACE] == data[..t.dataBytes][..SPACE];
    }
  }

  // ----- what a finished transaction leaves -------------------------------------------

  /** A finished grow: both headers say the new capacity and nothing else
      changed, so the pair opens; payload and log are untouched. */
  lemma {:induction false} GrowFinished(t: Intent, data: Bytes, index: Bytes)
    requires IntentOk(t) && t.grow && FilesOk(t, data, index)
    ensures var f, g, size := FinalData(t, data), FinalIndex(t, index), Parse(t.target).value.virtualSize;
      && HeadersOk(f[..SPACE], g[..SPACE], |f|, |g|)
      && Parse(f[..SPACE]) == Some(Parse(t.oldData).value.(virtualSize := size))
      && Parse(g[..SPACE]) == Some(Parse(t.oldIndex).value.(virtualSize := size))
      && f[SPACE..] == data[SPACE..] && g[SPACE..] == index[SPACE..]
  {
    var f, g, size := FinalData(t, data), FinalIndex(t, index), Parse(t.target).value.virtualSize;
    assert f[..SPACE] == t.target && g[..SPACE] == GrownIndex(t);
    assert f[SPACE..] == data[SPACE..] && g[SPACE..] == index[SPACE..];
    CapacityFits(size);
    ParseWithCapacity(t.oldData, size);
    ParseWithCapacity(t.oldIndex, size);
  }

  lemma {:induction false} CapacityFits(size: nat)
    requires CapacityOk(size)
    ensures size < TWO_64
  {
  }

  function RegionOf(h: Header): LsmtFile.Region {
    LsmtFile.Region(h.flags % 2 == 1, h.flags / 2 % 2 == 1, h.flags / 4 % 2 == 1, h.flags / 32 % 2 == 1,
                    h.flags / 8 % 2 == 0 && h.flags / 16 % 2 == 0 && h.flags < 64 && h.version == h.subVersion == 1,
                    h.indexOffset, h.indexSize, h.virtualSize)
  }

  function Tail(data: Bytes): (r: Bytes)
    requires |data| >= SPACE
    ensures |r| == SPACE
  {
    data[|data| - SPACE..]
  }

  /** A complete sealed trailer at the end of the file. */
  predicate SealedTail(data: Bytes) {
    |data| >= 2 * SPACE && Parse(Tail(data)).Some? && Parse(Tail(data)).value.flags == HYBRID_FLAG + 6
  }

  predicate IndexInside(data: Bytes, t: Header) {
    && t.version == t.subVersion == 1 && |data| >= SPACE
    && SPACE <= t.indexOffset <= |data| - SPACE && t.indexSize <= MAX_INDEX
    && 16 * t.indexSize <= |data| - SPACE - t.indexOffset
  }

  function IndexEntries(data: Bytes, t: Header): seq<Mapping>
    requires IndexInside(data, t)
  {
    DecodeAll(data[t.indexOffset..t.indexOffset + 16 * t.indexSize])
  }

  ghost predicate EntriesOk(entries: seq<Mapping>, t: Header) {
    && LsmtFile.InOrder(LsmtFile.Loaded(entries))
    && (forall i :: 0 <= i < |LsmtFile.Loaded(entries)| ==> LsmtFile.Placed(LsmtFile.Loaded(entries)[i], RegionOf(t)))
  }

  ghost predicate SealedPair(data: Bytes, index: Bytes)
    requires |index| >= SPACE
  {
    && SealedTail(data) && HeadersOk(data[..SPACE], index[..SPACE], |data|, |index|)
    && var t := Parse(Tail(data)).value; IndexInside(data, t) && EntriesOk(IndexEntries(data, t), t)
  }

  /** The checks of one entry after one that ends at `end`. */
  predicate EntryFits(m: Mapping, end: nat, t: Header) {
    var payload := t.indexOffset / SECTOR;
    && m.length > 0 && t.virtualSize % SECTOR == 0 && end <= m.offset && m.End() <= t.virtualSize / SECTOR
    && (if m.zeroed then m.moffset == NO_PHYSICAL || DATA_START <= m.moffset <= payload
        else DATA_START <= m.moffset < payload && m.length <= payload - m.moffset)
  }

  ghost function EndOf(l: seq<Mapping>): nat { if |l| == 0 then 0 else l[|l| - 1].End() }

  lemma {:induction false} EntryStep(entries: seq<Mapping>, i: nat, t: Header)
    requires i < |entries| && t.flags == HYBRID_FLAG + 6 && EntriesOk(entries[..i], t)
    ensures var m, l := entries[i], LsmtFile.Loaded(entries[..i]);
      && (EntriesOk(entries[..i + 1], t) <==> Skipped(m) || EntryFits(m, EndOf(l), t))
      && EndOf(LsmtFile.Loaded(entries[..i + 1])) == if Skipped(m) then EndOf(l) else m.End()
  {
    assert entries[..i + 1][..i] == entries[..i];
    var m, l, next := entries[i], LsmtFile.Loaded(entries[..i]), LsmtFile.Loaded(entries[..i + 1]);
    if !Skipped(m) {
      assert next == l + [m.(tag := 0)];
      assert forall k :: 0 <= k < |l| ==> next[k] == l[k];
      assert LsmtFile.InOrder(next) <==> EndOf(l) <= m.offset by {
        if |l| > 0 && LsmtFile.InOrder(next) { assert next[|l| - 1].End() <= next[|l|].offset; }
      }
      assert LsmtFile.Placed(next[|l|], RegionOf(t)) && EndOf(l) <= m.offset <==> EntryFits(m, EndOf(l), t);
    }
  }

  /** The entry scan of is_sealed_pair. */
  method CheckEntries(entries: seq<Mapping>, t: Header) returns (ok: bool)
    requires t.flags == HYBRID_FLAG + 6
    ensures ok <==> EntriesOk(entries, t)
  {
    var end: nat := 0;
    var i: nat := 0;
    while i < |entries|
      invariant i <= |entries| && EntriesOk(entries[..i], t) && end == EndOf(LsmtFile.Loaded(entries[..i]))
    {
      EntryStep(entries, i, t);
      if !Skipped(entries[i]) {
        if !EntryFits(entries[i], end, t) {
          PrefixOk(entries, i + 1, t);
          return false;
        }
        end := entries[i].End();
      }
      i := i + 1;
    }
    assert entries[..i] == entries;
    ok := true;
  }

  lemma {:induction false} PrefixOk(entries: seq<Mapping>, n: nat, t: Header)
    requires n <= |entries|
    ensures EntriesOk(entries, t) ==> EntriesOk(entries[..n], t)
  {
    LoadedPrefix(entries, n);
  }

  lemma {:induction false} LoadedPrefix(entries: seq<Mapping>, n: nat)
    requires n <= |entries|
    ensures LsmtFile.Loaded(entries[..n]) <= LsmtFile.Loaded(entries)
  {
    if n < |entries| {
      LoadedPrefix(entries[..|entries| - 1], n);
      assert entries[..|entries| - 1][..n] == entries[..n];
    } else {
      assert entries[..n] == entries;
    }
  }

  /** is_sealed_pair; None when it throws. */
  method IsSealedPair(data: Bytes, index: Bytes) returns (r: Option<bool>)
    requires |index| >= SPACE
    ensures r.None? <==> SealedTail(data) && !HeadersOk(data[..SPACE], index[..SPACE], |data|, |index|)
    ensures r == Some(true) <==> SealedPair(data, index)
  {
    if |data| < 2 * SPACE { return Some(false); }
    var trailer := Parse(Tail(data));
    if trailer.None? || trailer.value.flags != HYBRID_FLAG + 6 { return Some(false); }
    if !HeadersOk(data[..SPACE], index[..SPACE], |data|, |index|) { return None; }
    if !IndexInside(data, trailer.value) { return Some(false); }
    var ok := CheckEntries(IndexEntries(data, trailer.value), trailer.value);
    r := Some(ok);
  }

  /** The file as the layer reader sees it. */
  function AsLayer(data: Bytes, payload: seq<Block>): LsmtFile.File
    requires SealedTail(data) && Parse(data[..SPACE]).Some? && IndexInside(data, Parse(Tail(data)).value)
  {
    var t := Parse(Tail(data)).value;
    LsmtFile.File(|data|, RegionOf(Parse(data[..SPACE]).value), RegionOf(t), IndexEntries(data, t), payload)
  }

  /** Whatever is_sealed_pair accepts, the layer reader opens. */
  lemma {:induction false} SealedPairOpens(data: Bytes, index: Bytes, payload: seq<Block>)
    requires |index| >= SPACE && SealedPair(data, index)
    ensures LsmtFile.Opens(AsLayer(data, payload))
  {
  }

  lemma {:induction false} SealableEntries(r: seq<Mapping>, t: Header, sectors: nat)
    requires Canonical(r) && Acceptable(r, sectors, t.indexOffset / SECTOR) && sectors <= MAX_OFFSET
    requires t.flags == HYBRID_FLAG + 6 && t.virtualSize % SECTOR == 0 && t.virtualSize / SECTOR == sectors
    ensures LsmtFile.Loaded(r) == r && EntriesOk(r, t)
  {
    assert forall i :: 0 <= i < |r| ==> !CleanPadding(r[i]);
    LsmtFile.LoadedSame(r);
  }

  lemma {:induction false} SealBytes(t: Intent, data: Bytes)
    requires Shaped(t) && !t.grow && t.dataBytes <= |data|
    ensures var f := FinalData(t, data);
      && |f| == TrailerOffset(t) + SPACE && Tail(f) == t.target && f[..t.dataBytes] == data[..t.dataBytes]
      && f[..SPACE] == data[..SPACE] && f[t.dataBytes..t.dataBytes + |t.log|] == t.log
  {
    var f := FinalData(t, data);
    assert f[..t.dataBytes] == data[..t.dataBytes];
    assert f[..SPACE] == f[..t.dataBytes][..SPACE] && data[..SPACE] == data[..t.dataBytes][..SPACE];
  }

  /** The sealed file is as well-formed a data file as the payload was. */
  lemma {:induction false} SealSizes(t: Intent, d: Header, x: Header)
    requires PairOk(HYBRID_FLAG, d, x, t.dataBytes, SPACE + |t.log|) && t.dataBytes + |t.log| + 2 * SPACE <= MAX_FILE
    ensures PairOk(HYBRID_FLAG, d, x, TrailerOffset(t) + SPACE, SPACE + |t.log|)
  {
  }

  /** What a seal intent says about the file it leads to. */
  ghost predicate Settled(t: Intent)
    requires Shaped(t)
  {
    && Parse(t.oldData).Some? && Parse(t.oldIndex).Some? && Parse(t.target).Some? && |t.log| % 16 == 0
    && |t.log| / 16 <= MAX_INDEX
    && PairOk(HYBRID_FLAG, Parse(t.oldData).value, Parse(t.oldIndex).value, TrailerOffset(t) + SPACE, SPACE + |t.log|)
    && var h := Parse(t.target).value;
       && h.flags == HYBRID_FLAG + 6 && h.version == h.subVersion == 1 && h.indexOffset == t.dataBytes
       && h.indexSize == |t.log| / 16
       && LsmtFile.Loaded(DecodeAll(t.log)) == DecodeAll(t.log) && EntriesOk(DecodeAll(t.log), h)
  }

  lemma {:induction false} SealSettles(t: Intent)
    requires IntentOk(t) && !t.grow
    ensures Settled(t)
  {
    var d := Parse(t.oldData).value;
    var h := SealHeader(d, t, Parse(t.target).value.userTag);
    ParseSerialize(h);
    SealSizes(t, d, Parse(t.oldIndex).value);
    SealableEntries(DecodeAll(t.log), h, d.virtualSize / SECTOR);
  }

  /** The finished file is a sealed layer holding this log's records. */
  ghost predicate SealedWith(f: Bytes, index: Bytes, log: Bytes)
    requires |index| >= SPACE && |log| % 16 == 0
  {
    && SealedPair(f, index) && IndexEntries(f, Parse(Tail(f)).value) == DecodeAll(log)
    && LsmtFile.Loaded(DecodeAll(log)) == DecodeAll(log)
  }

  lemma {:induction false} SettledSeals(t: Intent, f: Bytes, index: Bytes)
    requires Shaped(t) && Settled(t) && |f| == TrailerOffset(t) + SPACE && |index| == SPACE + |t.log|
    requires f[..SPACE] == t.oldData && index[..SPACE] == t.oldIndex && Tail(f) == t.target
    requires f[t.dataBytes..t.dataBytes + |t.log|] == t.log
    ensures SealedWith(f, index, t.log)
  {
    EntriesFound(f, Parse(t.target).value, t.log);
  }

  lemma {:induction false} EntriesFound(f: Bytes, h: Header, log: Bytes)
    requires |log| % 16 == 0 && |log| / 16 <= MAX_INDEX && h.version == h.subVersion == 1 && h.indexSize == |log| / 16
    requires SPACE <= h.indexOffset && h.indexOffset + |log| <= |f| - SPACE
    requires f[h.indexOffset..h.indexOffset + |log|] == log
    ensures IndexInside(f, h) && IndexEntries(f, h) == DecodeAll(log)
  {
    assert 16 * h.indexSize == |log|;
  }

  /** A finished seal: the pair is recognised as sealed, its entries are the
      log's records, and the payload is untouched. */
  lemma {:induction false} SealFinished(t: Intent, data: Bytes, index: Bytes)
    requires IntentOk(t) && !t.grow && FilesOk(t, data, index)
    ensures SealedWith(FinalData(t, data), index, t.log) && FinalData(t, data)[..t.dataBytes] == data[..t.dataBytes]
  {
    SealSettles(t);
    SealBytes(t, data);
    assert |index| == SPACE + |t.log|;
    SettledSeals(t, FinalData(t, data), index);
  }

  // ----- whole transactions -------------------------------------------------------------

  /** The intent grow publishes for a pair. */
  function GrowRecord(data: Bytes, index: Bytes, size: nat): Intent
    requires |data| >= SPACE && |index| >= SPACE
  {
    Intent(true, |data|, index[SPACE..], data[..SPACE], index[..SPACE], WithCapacity(data[..SPACE], size))
  }

  predicate Opened(data: Bytes, index: Bytes) {
    |data| >= SPACE && |index| >= SPACE && HeadersOk(data[..SPACE], index[..SPACE], |data|, |index|)
  }

  lemma {:induction false} GrowRecordAccepted(data: Bytes, index: Bytes, size: nat)
    requires Opened(data, index) && CapacityOk(size) && size > Parse(data[..SPACE]).value.virtualSize
    ensures var t := GrowRecord(data, index, size);
      IntentOk(t) && FilesOk(t, data, index) && Parse(t.target).value.virtualSize == size
  {
    CapacityFits(size);
    ParseWithCapacity(data[..SPACE], size);
  }

  /** Growing, however often it is interrupted, ends with the same pair at the new
      capacity, and never with any other. */
  lemma {:induction false} GrowTransaction(data: Bytes, index: Bytes, size: nat, run: seq<Files>)
    requires Opened(data, index) && CapacityOk(size) && size > Parse(data[..SPACE]).value.virtualSize
    requires |run| > 0 && run[0] == Files(data, index)
    requires forall n :: 0 < n < |run| ==> Attempt(GrowRecord(data, index, size), run[n - 1], run[n])
    ensures var t, last := GrowRecord(data, index, size), run[|run| - 1];
      && Accepts(t, last.data, last.index)
      && var f, g := FinalData(t, last.data), FinalIndex(t, last.index);
         && Opened(f, g) && f[SPACE..] == data[SPACE..] && g[SPACE..] == index[SPACE..]
         && Parse(f[..SPACE]) == Some(Parse(data[..SPACE]).value.(virtualSize := size))
  {
    var t := GrowRecord(data, index, size);
    GrowRecordAccepted(data, index, size);
    AnyRunConverges(t, run);
    GrowFinished(t, data, index);
  }

  /** The intent seal publishes. */
  function SealRecord(data: Bytes, index: Bytes, userTag: Bytes): Intent
    requires Opened(data, index) && Storable(SealTarget(data, index, userTag))
  {
    Intent(false, |data|, index[SPACE..], data[..SPACE], index[..SPACE], Serialize(SealTarget(data, index, userTag)))
  }

  function SealTarget(data: Bytes, index: Bytes, userTag: Bytes): Header
    requires Opened(data, index)
  {
    Parse(data[..SPACE]).value.(flags := HYBRID_FLAG + 6, indexOffset := |data|,
                                indexSize := (|index| - SPACE) / 16, userTag := userTag)
  }

  /** What seal asks of the pair: room in the file and the read-only index, a
      storable tag and a compacted log. */
  ghost predicate CanSeal(data: Bytes, index: Bytes, userTag: Bytes) {
    && Opened(data, index) && |userTag| < 256 && 0 !in userTag
    && (|index| - SPACE) / 16 <= MAX_INDEX && |data| + |index| + SPACE <= MAX_FILE
    && Sealable(DecodeAll(index[SPACE..]), Parse(data[..SPACE]).value.virtualSize / SECTOR, |data| / SECTOR)
  }

  lemma {:induction false} ParsedStorable(b: Bytes)
    requires |b| == SPACE && Parse(b).Some?
    ensures var h := Parse(b).value;
      && h.flags < 0x1_0000_0000 && h.virtualSize < TWO_64 && h.reserved < 0x1_0000 && h.version < 256
      && h.subVersion < 256
      && 0 !in h.uuid && 0 !in h.parent
  {
    Limits();
  }

  lemma {:induction false} SealTargetStorable(data: Bytes, index: Bytes, userTag: Bytes)
    requires Opened(data, index) && |userTag| < 256 && 0 !in userTag && |data| + |index| + SPACE <= MAX_FILE
    ensures Storable(SealTarget(data, index, userTag))
  {
    ParsedStorable(data[..SPACE]);
  }

  lemma {:induction false} SealRecordAccepted(data: Bytes, index: Bytes, userTag: Bytes)
    requires CanSeal(data, index, userTag)
    ensures Storable(SealTarget(data, index, userTag))
    ensures var t := SealRecord(data, index, userTag); IntentOk(t) && FilesOk(t, data, index)
  {
    SealTargetStorable(data, index, userTag);
    ParseSerialize(SealTarget(data, index, userTag));
  }

  /** Sealing, however often it is interrupted, ends with one sealed layer: the
      payload as it was and exactly the log's records as its index. */
  lemma {:induction false} SealTransaction(t: Intent, run: seq<Files>)
    requires IntentOk(t) && !t.grow && |run| > 0 && FilesOk(t, run[0].data, run[0].index)
    requires forall n :: 0 < n < |run| ==> Attempt(t, run[n - 1], run[n])
    ensures var last := run[|run| - 1];
      && Accepts(t, last.data, last.index) && FinalIndex(t, last.index) == run[0].index
      && SealedWith(FinalData(t, last.data), run[0].index, t.log)
      && FinalData(t, last.data)[..t.dataBytes] == run[0].data[..t.dataBytes]
  {
    AnyRunConverges(t, run);
    SealFinished(t, run[0].data, run[0].index);
  }
}
