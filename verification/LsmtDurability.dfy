/** What a flush of an LSMT upper saves: index files, their name and the payload file,
    through compactions, process exits and power losses. */
module LsmtDurability {
  import opened Segments
  import opened SectorArray
  import opened HybridReplay
  import opened LsmtReplay
  import opened LsmtJournal
  import LsmtLayer

  /** An index file: its records, from where every cut of it keeps DATA exclusive,
      and how many of its records a power loss leaves for certain. */
  datatype File = File(log: seq<Mapping>, since: nat, sure: nat)

  /** The volume at a completed flush, and the sectors requested since. */
  datatype Snapshot = Snapshot(recs: seq<Mapping>, data: seq<Block>, touched: iset<int>) {
    function Touch(xs: iset<int>): Snapshot { this.(touched := touched + xs) }
    function Read(x: int): Block { Held(Meaning(recs, x), data) }
  }

  /** The named index file and those its name may fall back to; the payload as
      cached, as it was at the last sync, and which of its sectors were written
      since; whether a power loss has not been followed by an open yet; how far a
      flush has come; and what the last completed one saved. */
  datatype Volume = Volume(sectors: nat, current: File, olds: seq<File>, payload: seq<Block>, durable: seq<Block>,
                           dirty: set<nat>, open: bool, lost: bool, stage: nat, done: Snapshot)

  ghost predicate AgreeExcept(a: seq<Block>, b: seq<Block>, ps: set<nat>) {
    forall p: nat :: p !in ps ==> Peek(a, p) == Peek(b, p)
  }

  predicate Between(lo: int, x: int, hi: int) { lo <= x < hi }

  ghost function Range(lo: int, hi: int): iset<int> { iset x: int | Between(lo, x, hi) }

  // ----- steps ----------------------------------------------------------------

  ghost predicate Starts(v: Volume) {
    exists log, payload, sectors: nat ::
      && Journal(log, |log|, sectors, |payload|) && sectors <= MAX_OFFSET
      && v == Volume(sectors, File(log, |log|, |log|), [], payload, payload, {}, false, false, 0,
                     Snapshot(log, payload, iset{}))
  }

  /** A request for sectors [lo, hi) writes payload only where those sectors have
      live DATA, or past the end: what the layer keeps true of its segments. */
  ghost predicate MayWrite(v: Volume, lo: int, hi: int, ps: set<nat>) {
    exists segs ::
      && SegsOk(segs, v.sectors, |v.payload|) && DataInjective(segs) && LsmtLayer.Agree(v.current.log, segs)
      && forall p :: p in ps ==> p >= |v.payload| || HeldWithin(segs, lo, hi, p)
  }

  ghost predicate HeldWithin(segs: seq<Mapping>, lo: int, hi: int, p: nat) {
    exists s :: lo <= s < hi && Resolve(segs, s).Data? && Resolve(segs, s).phys == p
  }

  ghost predicate WritePayload(v: Volume, w: Volume) {
    && v.open && |v.payload| <= |w.payload|
    && exists lo, hi, ps ::
         && MayWrite(v, lo, hi, ps) && AgreeExcept(w.payload, v.payload, ps)
         && w == v.(payload := w.payload, dirty := v.dirty + ps, stage := 0, done := v.done.Touch(Range(lo, hi)))
  }

  /** append: an admitted record over payload that is in place. */
  ghost predicate LogRecord(v: Volume, w: Volume) {
    && v.open
    && exists r ::
         && !Skipped(r) && Norm(r) == r && Journal(v.current.log + [r], v.current.since, v.sectors, |v.payload|)
         && w == v.(current := v.current.(log := v.current.log + [r]), stage := 0,
                    done := v.done.Touch(Range(r.offset, r.End())))
  }

  /** flush: payload, then index, then the directory. */
  ghost predicate SyncPayload(v: Volume, w: Volume) {
    v.open && w == v.(durable := v.payload, dirty := {}, stage := 1)
  }

  ghost predicate SyncIndex(v: Volume, w: Volume) {
    v.open && v.stage == 1 && w == v.(current := v.current.(sure := |v.current.log|), stage := 2)
  }

  ghost predicate SyncName(v: Volume, w: Volume) {
    && v.open
    && w == v.(olds := [], stage := 0,
               done := if v.stage == 2 then Snapshot(v.current.log, v.payload, iset{}) else v.done)
  }

  /** compact up to the rename: payload synced, the live segments written to a file
      of their own and synced, and the name moved. */
  ghost predicate Compact(v: Volume, w: Volume) {
    && v.open
    && exists segs ::
         && SegsOk(segs, v.sectors, |v.payload|) && DataInjective(segs) && |segs| <= MAX_INDEX
         && LsmtLayer.Agree(v.current.log, segs)
         && w == v.(current := File(segs, 0, |segs|), olds := v.olds + [v.current],
                    durable := v.payload, dirty := {}, stage := 2)
  }

  /** The process ends; everything it wrote stays in the kernel's cache. */
  ghost predicate Exit(v: Volume, w: Volume) { w == v.(open := false, stage := 0) }

  /** Replay of the complete records accepts the pair. */
  ghost predicate Accepts(log: seq<Mapping>, sectors: nat, size: nat) {
    Replayable(log, sectors, size) && !Alias(LiveIndex(log))
  }

  ghost predicate Open(v: Volume, w: Volume) {
    !v.open && Accepts(v.current.log, v.sectors, |v.payload|) && w == v.(open := true, lost := false)
  }

  /** The index files a power loss may find under the name. */
  ghost predicate Candidate(v: Volume, f: File) { f == v.current || f in v.olds }

  /** One outcome of a power loss: a file cut after its sure records, and a payload
      file no shorter than at its sync, with anything in the unsynced sectors. */
  ghost predicate Survives(v: Volume, f: File, n: nat, q: seq<Block>) {
    Candidate(v, f) && f.sure <= n <= |f.log| && |v.durable| <= |q| && AgreeExcept(q, v.durable, v.dirty)
  }

  ghost predicate Lose(v: Volume, w: Volume) {
    exists f, n: nat, q ::
      && Survives(v, f, n, q)
      && w == v.(current := File(f.log[..n], f.since, n), olds := [], payload := q, durable := q, dirty := {},
                 open := false, lost := true, stage := 0)
  }

  ghost predicate Moves(v: Volume, w: Volume) {
    || WritePayload(v, w) || LogRecord(v, w) || SyncPayload(v, w) || SyncIndex(v, w) || SyncName(v, w)
    || Compact(v, w) || Exit(v, w) || Open(v, w) || Lose(v, w)
  }

  ghost predicate VolumeRun(run: seq<Volume>) {
    && |run| > 0 && Starts(run[0])
    && forall i :: 0 <= i < |run| - 1 ==> Moves(run[i], run[i + 1])
  }

  // ----- invariant ------------------------------------------------------------

  /** Whatever the payload's size, cuts of the file stay within every limit and from
      `since` on keep DATA exclusive. */
  ghost predicate FileOk(f: File) {
    && f.since <= f.sure <= |f.log| <= MAX_LOG_RECORDS
    && (forall n :: 0 <= n <= |f.log| ==> |LiveIndex(f.log[..n])| <= MAX_INDEX)
    && (forall n :: f.since <= n <= |f.log| ==> DataInjective(LiveIndex(f.log[..n])))
  }

  /** Its sure records lie in the durable payload. */
  ghost predicate SureInside(v: Volume, f: File)
    requires f.sure <= |f.log|
  {
    Entries(f.log[..f.sure], v.sectors, |v.durable|)
  }

  ghost predicate CandidateOk(v: Volume, f: File) {
    FileOk(f) && PlacesKept(f, v.done) && (!v.lost ==> SureInside(v, f))
  }

  /** Every cut of the file has the snapshot's untouched sectors in their place. */
  ghost predicate PlacesKept(f: File, sn: Snapshot) {
    forall n, x: int :: f.sure <= n <= |f.log| && x !in sn.touched ==> Meaning(f.log[..n], x) == Meaning(sn.recs, x)
  }

  /** And their payload is the snapshot's, cached and durable. */
  ghost predicate PayloadKept(v: Volume, sn: Snapshot, x: int) {
    Meaning(sn.recs, x).Data? ==>
      var p := Meaning(sn.recs, x).phys;
      p !in v.dirty && Peek(v.durable, p) == Peek(v.payload, p) == Peek(sn.data, p)
  }

  ghost predicate Durable(v: Volume) {
    && v.sectors <= MAX_OFFSET && |v.durable| <= |v.payload| && AgreeExcept(v.payload, v.durable, v.dirty)
    && (forall f :: Candidate(v, f) ==> CandidateOk(v, f))
    && (v.lost ==> !v.open && v.olds == [] && v.durable == v.payload && v.current.sure == |v.current.log|)
    && (forall x: int :: x !in v.done.touched ==> PayloadKept(v, v.done, x))
    && (v.open ==> Journal(v.current.log, v.current.since, v.sectors, |v.payload|))
    && (v.stage > 0 ==> v.open && v.durable == v.payload && v.dirty == {})
    && (v.stage == 2 ==> v.current.sure == |v.current.log|)
  }

  // ----- acceptance -----------------------------------------------------------

  /** A surviving file opens exactly when its records lie in the surviving payload. */
  lemma {:induction false} OpensExactly(v: Volume, f: File, n: nat, size: nat)
    requires FileOk(f) && f.sure <= n <= |f.log|
    ensures Accepts(f.log[..n], v.sectors, size) <==> Entries(f.log[..n], v.sectors, size)
  {
    if Entries(f.log[..n], v.sectors, size) {
      forall k | 0 <= k <= n
        ensures |LiveIndex(f.log[..n][..k])| <= MAX_INDEX
      {
        assert f.log[..n][..k] == f.log[..k];
      }
      LiveSegsOk(f.log[..n], v.sectors, size);
      InjectiveNoAlias(LiveIndex(f.log[..n]));
    }
  }

  // ----- every step keeps the invariant -----------------------------------------

  /** A request elsewhere does not reach an untouched sector's payload. */
  lemma {:induction false} NotReached(v: Volume, lo: int, hi: int, ps: set<nat>, x: int)
    requires Durable(v) && v.open && MayWrite(v, lo, hi, ps)
    requires x !in v.done.touched && !(lo <= x < hi) && Meaning(v.done.recs, x).Data?
    ensures Meaning(v.done.recs, x).phys !in ps
  {
    var log := v.current.log;
    var segs :|
      && SegsOk(segs, v.sectors, |v.payload|) && DataInjective(segs) && LsmtLayer.Agree(log, segs)
      && forall p :: p in ps ==> p >= |v.payload| || HeldWithin(segs, lo, hi, p);
    assert Candidate(v, v.current) && CandidateOk(v, v.current);
    assert log[..|log|] == log;
    assert Meaning(log, x) == Meaning(v.done.recs, x);
    assert Resolve(segs, x) == Meaning(log, x);
    DataBelow(segs, v.sectors, |v.payload|, x);
  }

  lemma {:induction false} WriteKeeps(v: Volume, w: Volume)
    requires Durable(v) && WritePayload(v, w)
    ensures Durable(w)
  {
    var lo, hi, ps :|
      && MayWrite(v, lo, hi, ps) && AgreeExcept(w.payload, v.payload, ps)
      && w == v.(payload := w.payload, dirty := v.dirty + ps, stage := 0, done := v.done.Touch(Range(lo, hi)));
    forall x: int | x !in w.done.touched
      ensures PayloadKept(w, w.done, x)
    {
      assert PayloadKept(v, v.done, x) && !(lo <= x < hi);
      if Meaning(v.done.recs, x).Data? { NotReached(v, lo, hi, ps, x); }
    }
    SameFiles(v, w);
    JournalMore(v.current.log, v.current.since, v.sectors, |v.payload|, v.sectors, |w.payload|);
  }

  /** Files and places do not depend on the payload's contents. */
  lemma {:induction false} SameFiles(v: Volume, w: Volume)
    requires Durable(v) && w.current == v.current && w.olds == v.olds && w.sectors == v.sectors
    requires |v.durable| <= |w.durable| && w.done.recs == v.done.recs && v.done.touched <= w.done.touched
    requires w.lost == v.lost
    ensures forall f :: Candidate(w, f) ==> CandidateOk(w, f)
  {
    forall f | Candidate(w, f)
      ensures CandidateOk(w, f)
    {
      assert Candidate(v, f);
    }
  }

  lemma {:induction false} LoggedFile(v: Volume, w: Volume, r: Mapping)
    requires Durable(v) && v.open && !Skipped(r) && Norm(r) == r
    requires Journal(v.current.log + [r], v.current.since, v.sectors, |v.payload|)
    requires w == v.(current := v.current.(log := v.current.log + [r]), stage := 0,
                     done := v.done.Touch(Range(r.offset, r.End())))
    ensures CandidateOk(w, w.current)
  {
    var log, next := v.current.log, w.current.log;
    assert Candidate(v, v.current);
    assert next[..w.current.sure] == log[..v.current.sure];
    forall n, x: int | w.current.sure <= n <= |next| && x !in w.done.touched
      ensures Meaning(next[..n], x) == Meaning(w.done.recs, x)
    {
      if n <= |log| {
        assert next[..n] == log[..n];
      } else {
        assert next[..n] == log + [r] && log[..|log|] == log && !(Between(r.offset, x, r.End()));
        LsmtLayer.MeaningAppend(log, r, x);
      }
    }
  }

  lemma {:induction false} LogKeeps(v: Volume, w: Volume)
    requires Durable(v) && LogRecord(v, w)
    ensures Durable(w)
  {
    var r :|
      && !Skipped(r) && Norm(r) == r && Journal(v.current.log + [r], v.current.since, v.sectors, |v.payload|)
      && w == v.(current := v.current.(log := v.current.log + [r]), stage := 0,
                 done := v.done.Touch(Range(r.offset, r.End())));
    LoggedFile(v, w, r);
    forall f | Candidate(w, f)
      ensures CandidateOk(w, f)
    {
      if f != w.current { assert Candidate(v, f); }
    }
    forall x: int | x !in w.done.touched
      ensures PayloadKept(w, w.done, x)
    {
      assert PayloadKept(v, v.done, x);
    }
  }

  lemma {:induction false} SyncKeeps(v: Volume, w: Volume)
    requires Durable(v) && (SyncPayload(v, w) || Exit(v, w))
    ensures Durable(w)
  {
    SameFiles(v, w);
    forall x: int | x !in w.done.touched
      ensures PayloadKept(w, w.done, x)
    {
      assert PayloadKept(v, v.done, x);
    }
  }

  lemma {:induction false} OpenKeeps(v: Volume, w: Volume)
    requires Durable(v) && Open(v, w)
    ensures Durable(w)
  {
    var log := v.current.log;
    assert Candidate(v, v.current) && log[..|log|] == log;
    forall f | Candidate(w, f)
      ensures CandidateOk(w, f)
    {
      assert Candidate(v, f);
    }
    forall x: int | x !in w.done.touched
      ensures PayloadKept(w, w.done, x)
    {
      assert PayloadKept(v, v.done, x);
    }
  }

  lemma {:induction false} IndexKeeps(v: Volume, w: Volume)
    requires Durable(v) && SyncIndex(v, w)
    ensures Durable(w)
  {
    assert v.current.log[..|v.current.log|] == v.current.log;
    assert Candidate(v, v.current);
    forall f | Candidate(w, f)
      ensures CandidateOk(w, f)
    {
      if f != w.current { assert Candidate(v, f); }
    }
    forall x: int | x !in w.done.touched
      ensures PayloadKept(w, w.done, x)
    {
      assert PayloadKept(v, v.done, x);
    }
  }

  lemma {:induction false} NameKeeps(v: Volume, w: Volume)
    requires Durable(v) && SyncName(v, w)
    ensures Durable(w)
  {
    assert Candidate(v, v.current) && v.current.log[..|v.current.log|] == v.current.log;
    forall f | Candidate(w, f)
      ensures CandidateOk(w, f)
    {
      assert f == v.current;
    }
    forall x: int | x !in w.done.touched
      ensures PayloadKept(w, w.done, x)
    {
      if v.stage != 2 { assert PayloadKept(v, v.done, x); }
    }
  }

  lemma {:induction false} CompactPlaces(v: Volume, segs: seq<Mapping>, x: int)
    requires Durable(v) && LsmtLayer.Agree(v.current.log, segs) && Meaning(segs, x) == Resolve(segs, x)
    requires x !in v.done.touched
    ensures Meaning(segs, x) == Meaning(v.done.recs, x)
  {
    var log := v.current.log;
    assert Candidate(v, v.current) && CandidateOk(v, v.current) && log[..|log|] == log;
    assert Meaning(log, x) == Meaning(v.done.recs, x);
  }

  lemma {:induction false} JournalFile(log: seq<Mapping>, since: nat, v: Volume, sn: Snapshot)
    requires Journal(log, since, v.sectors, |v.durable|)
    requires forall x: int :: x !in sn.touched ==> Meaning(log, x) == Meaning(sn.recs, x)
    ensures FileOk(File(log, since, |log|)) && SureInside(v, File(log, since, |log|))
    ensures PlacesKept(File(log, since, |log|), sn)
  {
    hide LiveIndex;
    hide Meaning;
    assert log[..|log|] == log;
  }

  lemma {:induction false} CompactFile(v: Volume, w: Volume, segs: seq<Mapping>)
    requires Durable(v) && v.open && SegsOk(segs, v.sectors, |v.payload|) && DataInjective(segs) && |segs| <= MAX_INDEX
    requires LsmtLayer.Agree(v.current.log, segs) && w.sectors == v.sectors && |w.durable| == |v.payload|
    requires w.done == v.done
    ensures CandidateOk(w, File(segs, 0, |segs|))
    ensures Journal(segs, 0, v.sectors, |v.payload|)
  {
    assert v.sectors <= MAX_OFFSET;
    hide Durable;
    hide LiveIndex;
    hide Meaning;
    hide FileOk;
    hide SureInside;
    hide PlacesKept;
    hide Journal;
    CompactJournal(segs, v.sectors, |v.payload|);
    forall x: int | x !in v.done.touched
      ensures Meaning(segs, x) == Meaning(v.done.recs, x)
    {
      CompactPlaces(v, segs, x);
    }
    JournalFile(segs, 0, w, v.done);
  }

  lemma {:induction false} CompactKeeps(v: Volume, w: Volume)
    requires Durable(v) && Compact(v, w)
    ensures Durable(w)
  {
    var segs :|
      && SegsOk(segs, v.sectors, |v.payload|) && DataInjective(segs) && |segs| <= MAX_INDEX
      && LsmtLayer.Agree(v.current.log, segs)
      && w == v.(current := File(segs, 0, |segs|), olds := v.olds + [v.current],
                 durable := v.payload, dirty := {}, stage := 2);
    CompactFile(v, w, segs);
    forall f | Candidate(w, f)
      ensures CandidateOk(w, f)
    {
      if f != w.current { assert Candidate(v, f); }
    }
    forall x: int | x !in w.done.touched
      ensures PayloadKept(w, w.done, x)
    {
      assert PayloadKept(v, v.done, x);
    }
  }

  lemma {:induction false} CutFile(f: File, n: nat, sn: Snapshot)
    requires FileOk(f) && PlacesKept(f, sn) && f.sure <= n <= |f.log|
    ensures FileOk(File(f.log[..n], f.since, n)) && PlacesKept(File(f.log[..n], f.since, n), sn)
  {
    var g := File(f.log[..n], f.since, n);
    assert forall k :: 0 <= k <= n ==> g.log[..k] == f.log[..k];
  }

  lemma {:induction false} LossKeeps(v: Volume, w: Volume)
    requires Durable(v) && Lose(v, w)
    ensures Durable(w)
  {
    var f, n: nat, q :|
      && Survives(v, f, n, q)
      && w == v.(current := File(f.log[..n], f.since, n), olds := [], payload := q, durable := q, dirty := {},
                 open := false, lost := true, stage := 0);
    CutFile(f, n, v.done);
    forall g | Candidate(w, g)
      ensures CandidateOk(w, g)
    {
    }
    forall x: int | x !in w.done.touched
      ensures PayloadKept(w, w.done, x)
    {
      assert PayloadKept(v, v.done, x);
    }
  }

  lemma {:induction false} MovesDurable(v: Volume, w: Volume)
    requires Durable(v) && Moves(v, w)
    ensures Durable(w)
  {
    hide Durable;
    if WritePayload(v, w) { WriteKeeps(v, w); }
    else if LogRecord(v, w) { LogKeeps(v, w); }
    else if SyncIndex(v, w) { IndexKeeps(v, w); }
    else if SyncName(v, w) { NameKeeps(v, w); }
    else if Compact(v, w) { CompactKeeps(v, w); }
    else if Lose(v, w) { LossKeeps(v, w); }
    else if Open(v, w) { OpenKeeps(v, w); }
    else { SyncKeeps(v, w); }
  }

  lemma {:induction false} StartsDurable(v: Volume)
    requires Starts(v)
    ensures Durable(v)
  {
    hide LiveIndex;
    hide Meaning;
    var log := v.current.log;
    assert log[..|log|] == log;
    forall f | Candidate(v, f)
      ensures CandidateOk(v, f)
    {
      assert f == v.current;
    }
  }

  lemma {:induction false} RunDurable(run: seq<Volume>, i: nat)
    requires VolumeRun(run) && i < |run|
    ensures Durable(run[i])
  {
    if i == 0 {
      StartsDurable(run[0]);
    } else {
      RunDurable(run, i - 1);
      assert Moves(run[i - 1], run[i]);
      MovesDurable(run[i - 1], run[i]);
    }
  }

  // ----- theorems -----------------------------------------------------------------

  /** At every point of every run, whatever a power loss leaves: the pair opens if
      and only if the surviving records lie in the surviving payload, and whether it
      opens now or later, every sector not requested since the last completed flush
      is where and what that flush had. */
  lemma {:induction false} FlushSurvives(run: seq<Volume>, i: nat, f: File, n: nat, q: seq<Block>, x: int)
    requires VolumeRun(run) && i < |run| && Survives(run[i], f, n, q)
    ensures Accepts(f.log[..n], run[i].sectors, |q|) <==> Entries(f.log[..n], run[i].sectors, |q|)
    ensures x !in run[i].done.touched ==> Held(Meaning(f.log[..n], x), q) == run[i].done.Read(x)
  {
    var v := run[i];
    RunDurable(run, i);
    assert CandidateOk(v, f);
    OpensExactly(v, f, n, |q|);
    if x !in v.done.touched { assert PayloadKept(v, v.done, x); }
  }

  /** The same without a loss: ending the process and opening again. */
  lemma {:induction false} ExitSurvives(run: seq<Volume>, i: nat, x: int)
    requires VolumeRun(run) && i < |run| && run[i].open
    ensures Accepts(run[i].current.log, run[i].sectors, |run[i].payload|)
    ensures x !in run[i].done.touched ==> Held(Meaning(run[i].current.log, x), run[i].payload) == run[i].done.Read(x)
  {
    var v := run[i];
    RunDurable(run, i);
    var f := v.current;
    assert Candidate(v, f) && f.log[..|f.log|] == f.log;
    OpensExactly(v, f, |f.log|, |v.payload|);
    if x !in v.done.touched { assert PayloadKept(v, v.done, x); }
  }

  /** The records a sync covered always open: cut there, and with nothing logged
      since whatever survives, the pair is accepted. */
  lemma {:induction false} SyncedOpens(run: seq<Volume>, i: nat, f: File, n: nat, q: seq<Block>)
    requires VolumeRun(run) && i < |run| && !run[i].lost && Survives(run[i], f, n, q) && n == f.sure
    ensures Accepts(f.log[..n], run[i].sectors, |q|)
  {
    RunDurable(run, i);
    assert CandidateOk(run[i], f);
    OpensExactly(run[i], f, n, |q|);
  }

  /** A flush that runs to the end saves the whole volume, and right after it every
      power loss leaves a pair that opens. */
  lemma {:induction false} FlushSaves(run: seq<Volume>, i: nat)
    requires VolumeRun(run) && i + 3 < |run|
    requires SyncPayload(run[i], run[i + 1]) && SyncIndex(run[i + 1], run[i + 2]) && SyncName(run[i + 2], run[i + 3])
    ensures var w := run[i + 3];
      && w.done == Snapshot(run[i].current.log, run[i].payload, iset{})
      && w.olds == [] && w.current.sure == |w.current.log|
      && forall f, n: nat, q :: Survives(w, f, n, q) ==> Accepts(f.log[..n], w.sectors, |q|)
  {
    var w := run[i + 3];
    RunDurable(run, i + 2);
    RunDurable(run, i + 3);
    forall f, n: nat, q | Survives(w, f, n, q)
      ensures Accepts(f.log[..n], w.sectors, |q|)
    {
      SyncedOpens(run, i + 3, f, n, q);
    }
  }

  /** So does a compaction whose directory sync succeeds. */
  lemma {:induction false} CompactionSaves(run: seq<Volume>, i: nat, x: int)
    requires VolumeRun(run) && i + 2 < |run| && Compact(run[i], run[i + 1]) && SyncName(run[i + 1], run[i + 2])
    ensures run[i + 2].done.touched == iset{} && run[i + 2].olds == []
    ensures run[i + 2].done.Read(x) == Held(Meaning(run[i].current.log, x), run[i].payload)
    ensures forall f, n: nat, q :: Survives(run[i + 2], f, n, q) ==> Accepts(f.log[..n], run[i + 2].sectors, |q|)
  {
    RunDurable(run, i);
    RunDurable(run, i + 2);
    var v := run[i];
    var segs :|
      && SegsOk(segs, v.sectors, |v.payload|) && DataInjective(segs) && |segs| <= MAX_INDEX
      && LsmtLayer.Agree(v.current.log, segs)
      && run[i + 1] == v.(current := File(segs, 0, |segs|), olds := v.olds + [v.current],
                          durable := v.payload, dirty := {}, stage := 2);
    CompactJournal(segs, v.sectors, |v.payload|);
    assert Meaning(segs, x) == Resolve(segs, x);
    forall f, n: nat, q | Survives(run[i + 2], f, n, q)
      ensures Accepts(f.log[..n], run[i + 2].sectors, |q|)
    {
      SyncedOpens(run, i + 2, f, n, q);
    }
  }

  // ----- a refusal --------------------------------------------------------------

  /** A written and appended sector, cut short by a loss that kept the record. */
  ghost function Refusal(): seq<Volume> {
    var base := seq(8, _ => ZERO_BLOCK);
    var long := seq(9, _ => ZERO_BLOCK);
    var done := Snapshot([], base, iset{});
    var v0 := Volume(1, File([], 0, 0), [], base, base, {}, false, false, 0, done);
    var v1 := v0.(open := true);
    var v2 := v1.(payload := long, dirty := {8}, done := done.Touch(Range(0, 1)));
    var v3 := v2.(current := File([Mapping(0, 1, 8, false, 0)], 0, 0));
    [v0, v1, v2, v3]
  }

  lemma {:induction false} RefusalRuns()
    ensures VolumeRun(Refusal())
  {
    var run := Refusal();
    var base := run[0].payload;
    CompactJournal([], 1, 8);
    assert Starts(run[0]) by { assert Journal([], 0, 1, |base|); }
    assert Open(run[0], run[1]);
    assert MayWrite(run[1], 0, 1, {8}) by {
      assert LsmtLayer.Agree([], []);
      assert SegsOk([], 1, 8) && DataInjective([]);
    }
    assert WritePayload(run[1], run[2]);
    var r := Mapping(0, 1, 8, false, 0);
    assert SegsOk([r], 1, 9) && DataInjective([r]);
    CompactJournal([r], 1, 9);
    assert [] + [r] == [r];
    assert LogRecord(run[2], run[3]);
  }

  /** An acknowledged write without a flush can cost the whole pair: the record
      survives, its payload does not, and the layer no longer opens. */
  lemma {:induction false} LossRefuses()
    ensures var v := Refusal()[3];
      && VolumeRun(Refusal()) && Survives(v, v.current, 1, v.durable)
      && !Accepts(v.current.log[..1], v.sectors, |v.durable|)
  {
    RefusalRuns();
    var v := Refusal()[3];
    assert v.current.log[..1][0] == Mapping(0, 1, 8, false, 0);
  }
}
