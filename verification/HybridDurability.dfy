/** What a flush of a Hybrid upper saves: the log-state protocol together with the
    payload file, through process exits and power losses. */
module HybridDurability {
  import opened Segments
  import opened SectorArray
  import opened HybridLog
  import HybridLogSafety
  import HybridStore

  /** The volume at a data sync: the log's records and the payload then, how many
      operations were logged by then, and the sectors written or logged since. */
  datatype Snapshot = Snapshot(recs: seq<Mapping>, data: seq<Block>, at: nat, touched: iset<int>) {
    function Touch(xs: iset<int>): Snapshot { this.(touched := touched + xs) }
    function Read(x: int): Block { Held(Resolve(recs, x), data) }
  }

  /** The log-state protocol and the payload file: as cached, as it was at the last
      sync, and which of its sectors were written since. `pend` is the last data
      sync, `done` the last one a completed commit covered. */
  datatype Volume = Volume(st: State, payload: seq<Block>, durable: seq<Block>, dirty: set<nat>,
                           pend: Snapshot, done: Snapshot)

  ghost predicate AgreeExcept(a: seq<Block>, b: seq<Block>, ps: set<nat>) {
    forall p: nat :: p !in ps ==> Peek(a, p) == Peek(b, p)
  }

  predicate Between(lo: int, x: int, hi: int) { lo <= x < hi }

  ghost function Range(lo: int, hi: int): iset<int> { iset x: int | Between(lo, x, hi) }

  // ----- steps ----------------------------------------------------------------

  ghost predicate Starts(v: Volume) {
    && Init(v.st) && v.durable == v.payload && v.dirty == {}
    && v.pend == v.done == Snapshot(v.st.history, v.payload, |v.st.history|, iset{})
  }

  /** A request for sectors [lo, hi) writes payload only where those sectors have
      theirs, or past the end: what the writer keeps true of its mapping. */
  ghost predicate MayWrite(recs: seq<Mapping>, lo: int, hi: int, ps: set<nat>) {
    exists l, sectors, dataEnd ::
      HybridStore.Good(l, recs, sectors, dataEnd) && forall p :: p in ps ==> p >= dataEnd || OwnedWithin(l, lo, hi, p)
  }

  ghost predicate OwnedWithin(l: seq<Mapping>, lo: int, hi: int, p: nat) {
    exists s :: lo <= s < hi && Owner(l, s) == Some(p)
  }

  /** The writer's pieces are such writes: a piece goes where its own sectors have
      their payload, or past the end. */
  lemma {:induction false} PieceMayWrite(l: seq<Mapping>, recs: seq<Mapping>, u: Mapping, sectors: nat, dataEnd: nat,
                                         ps: set<nat>)
    requires HybridStore.Good(l, recs, sectors, dataEnd)
    requires HybridStore.Publishable(l, u, sectors, dataEnd) || u.moffset >= dataEnd
    requires forall p :: p in ps ==> u.moffset <= p < u.moffset + u.length
    ensures MayWrite(recs, u.offset, u.End(), ps)
  {
    forall p | p in ps
      ensures p >= dataEnd || OwnedWithin(l, u.offset, u.End(), p)
    {
      var s := u.offset + (p - u.moffset);
      assert u.Covers(s);
      if p < dataEnd { assert Owner(l, s) == Some(p); }
    }
  }

  ghost predicate WritePayload(v: Volume, w: Volume) {
    && v.st.phase.Idle?
    && exists lo, hi, ps ::
         && MayWrite(v.st.phase.st.recs, lo, hi, ps) && AgreeExcept(w.payload, v.payload, ps)
         && w == v.(payload := w.payload, dirty := v.dirty + ps,
                    pend := v.pend.Touch(Range(lo, hi)), done := v.done.Touch(Range(lo, hi)))
  }

  ghost predicate SyncPayload(v: Volume, w: Volume) {
    && v.st.phase.Idle?
    && w == v.(durable := v.payload, dirty := {},
               pend := Snapshot(v.st.phase.st.recs, v.payload, |v.st.history|, iset{}))
  }

  ghost predicate LogRecord(v: Volume, w: Volume) {
    && AppendRecord(v.st, w.st)
    && var xs := Range(w.st.phase.rec.offset, w.st.phase.rec.End());
       w == v.(st := w.st, pend := v.pend.Touch(xs), done := v.done.Touch(xs))
  }

  ghost predicate Commit(v: Volume, w: Volume) {
    CommitSync(v.st, w.st) && w == v.(st := w.st, done := v.pend)
  }

  ghost predicate Running(s: State, t: State) {
    AppendProgress(s, t) || FlushIndex(s, t) || FlushName(s, t) || CommitWrite(s, t) || Fail(s, t) || Exit(s, t)
  }

  ghost predicate Changing(s: State, t: State) {
    CompactCreate(s, t) || CompactStep(s, t) || Open(s, t) || ActivateStep(s, t)
  }

  /** The steps that neither log an operation nor complete a commit. */
  ghost predicate Quiet(s: State, t: State) {
    Running(s, t) || Changing(s, t)
  }

  /** Power loss: the log state falls back as it may, and every payload sector not
      synced since it was written may hold anything. */
  ghost predicate Lose(v: Volume, w: Volume) {
    && PowerLoss(v.st, w.st) && AgreeExcept(w.payload, v.durable, v.dirty)
    && w == v.(st := w.st, payload := w.payload, durable := w.payload, dirty := {}, pend := v.done)
  }

  ghost predicate Moves(v: Volume, w: Volume) {
    || WritePayload(v, w) || SyncPayload(v, w) || LogRecord(v, w) || Commit(v, w)
    || (Quiet(v.st, w.st) && w == v.(st := w.st)) || Lose(v, w)
  }

  ghost predicate VolumeRun(run: seq<Volume>) {
    && |run| > 0 && Starts(run[0])
    && forall i :: 0 <= i < |run| - 1 ==> Moves(run[i], run[i + 1])
  }

  // ----- invariant ------------------------------------------------------------

  /** Sector x is still logged where the snapshot has it, and its payload there is
      the snapshot's, cached and durable. */
  ghost predicate Saved(v: Volume, sn: Snapshot, x: int)
    requires sn.at <= |v.st.history|
  {
    && Retag(Resolve(v.st.history[..sn.at], x), 0) == Retag(Resolve(sn.recs, x), 0)
    && (Resolve(sn.recs, x).Data? ==>
          var p := Resolve(sn.recs, x).phys;
          p !in v.dirty && Peek(v.durable, p) == Peek(v.payload, p) == Peek(sn.data, p))
  }

  ghost predicate SnapOk(v: Volume, sn: Snapshot) {
    && sn.at <= |v.st.history|
    && (forall i, x: int :: sn.at <= i < |v.st.history| && v.st.history[i].Covers(x) ==> x in sn.touched)
    && (forall x: int :: x !in sn.touched ==> Saved(v, sn, x))
  }

  ghost predicate Durable(v: Volume) {
    && HybridLogSafety.Inv(v.st) && SnapOk(v, v.pend) && SnapOk(v, v.done)
    && v.done.at <= v.st.committed && v.pend.at <= v.st.returned
  }

  /** Records that do not cover a sector do not change it. */
  lemma {:induction false} Uncovered(h: seq<Mapping>, at: nat, k: nat, x: int)
    requires at <= k <= |h| && forall i :: at <= i < k ==> !h[i].Covers(x)
    ensures Resolve(h[..k], x) == Resolve(h[..at], x)
    decreases k
  {
    if at < k {
      assert h[..k][..k - 1] == h[..k - 1];
      Uncovered(h, at, k - 1, x);
    }
  }

  /** Whatever prefix of the history from the snapshot on is replayed, untouched
      sectors are where the snapshot has them. */
  lemma {:induction false} SamePlace(v: Volume, sn: Snapshot, recs: seq<Mapping>, k: nat, x: int)
    requires SnapOk(v, sn) && sn.at <= k <= |v.st.history| && SameReplay(recs, v.st.history[..k]) && x !in sn.touched
    ensures Retag(Resolve(recs, x), 0) == Retag(Resolve(sn.recs, x), 0)
  {
    assert Saved(v, sn, x);
    Uncovered(v.st.history, sn.at, k, x);
    assert Retag(Resolve(recs, x), 0) == Retag(Resolve(v.st.history[..k], x), 0);
  }

  // ----- every step keeps it ----------------------------------------------------

  /** A request elsewhere does not reach an untouched sector's payload. */
  lemma {:induction false} NotReached(v: Volume, sn: Snapshot, lo: int, hi: int, ps: set<nat>, x: int)
    requires HybridLogSafety.Inv(v.st) && SnapOk(v, sn) && v.st.phase.Idle? && MayWrite(v.st.phase.st.recs, lo, hi, ps)
    requires x !in sn.touched && !(lo <= x < hi) && Resolve(sn.recs, x).Data?
    ensures Resolve(sn.recs, x).phys !in ps
  {
    var recs := v.st.phase.st.recs;
    var l, sectors, dataEnd :|
      HybridStore.Good(l, recs, sectors, dataEnd) && forall p :: p in ps ==> p >= dataEnd || OwnedWithin(l, lo, hi, p);
    SamePlace(v, sn, recs, |v.st.history|, x);
    HybridStore.LogReplays(l, recs, sectors, dataEnd);
    assert Resolve(l, x) == Retag(Resolve(recs, x), 0);
    HybridStore.DataIsOwned(l, sectors, dataEnd, x);
    var p := Resolve(sn.recs, x).phys;
    assert Owner(l, x) == Some(p);
  }

  lemma {:induction false} WriteKeeps(v: Volume, w: Volume, sn: Snapshot, lo: int, hi: int, ps: set<nat>)
    requires HybridLogSafety.Inv(v.st) && SnapOk(v, sn) && v.st.phase.Idle? && MayWrite(v.st.phase.st.recs, lo, hi, ps)
    requires AgreeExcept(w.payload, v.payload, ps) && w.st == v.st && w.durable == v.durable && w.dirty == v.dirty + ps
    ensures SnapOk(w, sn.Touch(Range(lo, hi)))
  {
    var tn := sn.Touch(Range(lo, hi));
    forall x: int | x !in tn.touched
      ensures Saved(w, tn, x)
    {
      assert Saved(v, sn, x) && !(lo <= x < hi);
      if Resolve(sn.recs, x).Data? { NotReached(v, sn, lo, hi, ps, x); }
    }
  }

  /** A snapshot depends on the log state through its history alone. */
  lemma {:induction false} SameHistory(v: Volume, w: Volume, sn: Snapshot)
    requires SnapOk(v, sn) && w.st.history == v.st.history && w.payload == v.payload && w.durable == v.durable
    requires w.dirty == v.dirty
    ensures SnapOk(w, sn)
  {
    forall x: int | x !in sn.touched
      ensures Saved(w, sn, x)
    {
      assert Saved(v, sn, x);
    }
  }

  lemma {:induction false} RecordKeeps(v: Volume, w: Volume, sn: Snapshot, r: Mapping)
    requires SnapOk(v, sn) && w.st.history == v.st.history + [r]
    requires w.payload == v.payload && w.durable == v.durable && w.dirty == v.dirty
    ensures SnapOk(w, sn.Touch(Range(r.offset, r.End())))
  {
    var tn := sn.Touch(Range(r.offset, r.End()));
    assert w.st.history[..sn.at] == v.st.history[..sn.at];
    forall i, x: int | sn.at <= i < |w.st.history| && w.st.history[i].Covers(x)
      ensures x in tn.touched
    {
      if i < |v.st.history| { assert v.st.history[i].Covers(x); }
    }
    forall x: int | x !in tn.touched
      ensures Saved(w, tn, x)
    {
      assert Saved(v, sn, x);
    }
  }

  lemma {:induction false} CommitKeeps(v: Volume, w: Volume, sn: Snapshot, k: nat)
    requires SnapOk(v, sn) && sn.at <= k <= |v.st.history| && w.st.history == v.st.history[..k]
    requires w.payload == v.payload && w.durable == v.durable && w.dirty == v.dirty
    ensures SnapOk(w, sn)
  {
    assert w.st.history[..sn.at] == v.st.history[..sn.at];
    forall i, x: int | sn.at <= i < |w.st.history| && w.st.history[i].Covers(x)
      ensures x in sn.touched
    {
      assert v.st.history[i].Covers(x);
    }
    forall x: int | x !in sn.touched
      ensures Saved(w, sn, x)
    {
      assert Saved(v, sn, x);
    }
  }

  lemma {:induction false} LossKeeps(v: Volume, w: Volume, sn: Snapshot)
    requires SnapOk(v, sn) && w.st.history == v.st.history && AgreeExcept(w.payload, v.durable, v.dirty)
    requires w.durable == w.payload && w.dirty == {}
    ensures SnapOk(w, sn)
  {
    forall x: int | x !in sn.touched
      ensures Saved(w, sn, x)
    {
      assert Saved(v, sn, x);
    }
  }

  lemma {:induction false} SyncStarts(v: Volume, w: Volume)
    requires HybridLogSafety.Inv(v.st) && SyncPayload(v, w)
    ensures SnapOk(w, w.pend) && w.pend.at <= w.st.returned
  {
    var h := v.st.history;
    assert SameReplay(w.pend.recs, h[..|h|]);
    forall x: int
      ensures Saved(w, w.pend, x)
    {
      assert Retag(Resolve(w.pend.recs, x), 0) == Retag(Resolve(h[..|h|], x), 0);
    }
  }

  /** A data sync makes durable what was saved before, too. */
  lemma {:induction false} SyncKeeps(v: Volume, w: Volume, sn: Snapshot)
    requires SnapOk(v, sn) && w.st == v.st && w.payload == v.payload == w.durable && w.dirty == {}
    ensures SnapOk(w, sn)
  {
    forall x: int | x !in sn.touched
      ensures Saved(w, sn, x)
    {
      assert Saved(v, sn, x);
    }
  }

  lemma {:induction false} RunningHistory(s: State, t: State)
    requires HybridLogSafety.Inv(s) && Running(s, t)
    ensures Next(s, t) && t.history == s.history && t.committed == s.committed && t.returned >= s.returned
  {
  }

  lemma {:induction false} ChangingHistory(s: State, t: State)
    requires Changing(s, t)
    ensures Next(s, t) && t.history == s.history && t.committed == s.committed && t.returned == s.returned
  {
  }

  lemma {:induction false} MovesDurable(v: Volume, w: Volume)
    requires Durable(v) && Moves(v, w)
    ensures Durable(w)
  {
    if WritePayload(v, w) {
      var lo, hi, ps :|
        && MayWrite(v.st.phase.st.recs, lo, hi, ps) && AgreeExcept(w.payload, v.payload, ps)
        && w == v.(payload := w.payload, dirty := v.dirty + ps,
                   pend := v.pend.Touch(Range(lo, hi)), done := v.done.Touch(Range(lo, hi)));
      WriteKeeps(v, w, v.pend, lo, hi, ps);
      WriteKeeps(v, w, v.done, lo, hi, ps);
    } else if SyncPayload(v, w) {
      SyncStarts(v, w);
      SyncKeeps(v, w, v.done);
    } else if LogRecord(v, w) {
      HybridLogSafety.NextInv(v.st, w.st);
      RecordKeeps(v, w, v.pend, w.st.phase.rec);
      RecordKeeps(v, w, v.done, w.st.phase.rec);
    } else if Commit(v, w) {
      HybridLogSafety.NextInv(v.st, w.st);
      CommitKeeps(v, w, v.pend, Cover(v.st, v.st.phase.st));
    } else if Lose(v, w) {
      HybridLogSafety.NextInv(v.st, w.st);
      LossKeeps(v, w, v.done);
    } else {
      if Running(v.st, w.st) { RunningHistory(v.st, w.st); } else { ChangingHistory(v.st, w.st); }
      HybridLogSafety.NextInv(v.st, w.st);
      SameHistory(v, w, v.pend);
      SameHistory(v, w, v.done);
    }
  }

  lemma {:induction false} RunDurable(run: seq<Volume>, i: nat)
    requires VolumeRun(run) && i < |run|
    ensures Durable(run[i])
  {
    if i == 0 {
      var v := run[0];
      HybridLogSafety.InitInv(v.st);
      assert v.st.history[..|v.st.history|] == v.st.history;
    } else {
      RunDurable(run, i - 1);
      assert Moves(run[i - 1], run[i]);
      MovesDurable(run[i - 1], run[i]);
    }
  }

  // ----- theorems -----------------------------------------------------------------

  /** At every point of every run, reopening reads every sector not requested since
      the last completed flush exactly as that flush had it. */
  lemma {:induction false} FlushSurvives(run: seq<Volume>, i: nat, x: int)
    requires VolumeRun(run) && i < |run| && x !in run[i].done.touched
    ensures var v := run[i];
      && HybridLogSafety.Inv(v.st)
      && (InspectNow(v.st).Use? ==> Held(Resolve(InspectNow(v.st).stamp.recs, x), v.payload) == v.done.Read(x))
      && (InspectNow(v.st).Unmanaged? ==>
                Held(Resolve(v.st.files[v.st.name.now].log.now, x), v.payload) == v.done.Read(x))
  {
    var v := run[i];
    RunDurable(run, i);
    assert Saved(v, v.done, x);
    var h := v.st.history;
    if InspectNow(v.st).Use? {
      var st := InspectNow(v.st).stamp;
      SamePlace(v, v.done, st.recs, Cover(v.st, st), x);
    } else {
      assert h[..|h|] == h;
      assert SameReplay(h, h[..|h|]);
      SamePlace(v, v.done, h, |h|, x);
    }
  }

  /** And so after a power loss at that point, whatever each unsynced object and
      each unsynced payload sector falls back to. */
  lemma {:induction false} FlushSurvivesLoss(run: seq<Volume>, i: nat, x: int, ino: nat, a: Anchor, p: Option<Stamp>,
                                             c: seq<Mapping>, q: seq<Block>)
    requires VolumeRun(run) && i < |run| && x !in run[i].done.touched && Wf(run[i].st)
    requires ino in run[i].st.name.disk && a in run[i].st.anchor.disk
    requires p in run[i].st.files[ino].progress.disk && run[i].st.files[ino].log.MayLeave(c)
    requires AgreeExcept(q, run[i].durable, run[i].dirty)
    ensures Inspect(a, p, c) != Reject
    ensures Inspect(a, p, c).Use? ==> Held(Resolve(Inspect(a, p, c).stamp.recs, x), q) == run[i].done.Read(x)
    ensures Inspect(a, p, c).Unmanaged? ==> Held(Resolve(c, x), q) == run[i].done.Read(x)
  {
    var v := run[i];
    RunDurable(run, i);
    assert Saved(v, v.done, x);
    HybridLogSafety.ChoiceOk(v.st, ino, a, p, c);
    assert PairOk(v.st, ino, a, p);
    var h := v.st.history;
    if Inspect(a, p, c).Use? {
      var st := Inspect(a, p, c).stamp;
      SamePlace(v, v.done, st.recs, Cover(v.st, st), x);
    } else {
      assert h[..|h|] == h;
      assert SameReplay(h, h[..|h|]);
      SamePlace(v, v.done, h, |h|, x);
    }
  }

  lemma {:induction false} FlushStep(v: Volume, w: Volume)
    requires Moves(v, w) && (FlushIndex(v.st, w.st) || FlushName(v.st, w.st) || CommitWrite(v.st, w.st))
    ensures w == v.(st := w.st) && w.st.history == v.st.history
  {
  }

  /** A flush that runs to the end saves the whole volume as it was: from then on
      only later requests count as touched. */
  lemma {:induction false} FlushSaves(run: seq<Volume>, i: nat)
    requires VolumeRun(run) && i + 5 < |run|
    requires SyncPayload(run[i], run[i + 1]) && FlushIndex(run[i + 1].st, run[i + 2].st)
    requires FlushName(run[i + 2].st, run[i + 3].st)
    requires CommitWrite(run[i + 3].st, run[i + 4].st) && Commit(run[i + 4], run[i + 5])
    ensures run[i + 5].done.touched == iset{} && run[i + 5].st.committed == |run[i].st.history|
    ensures forall x: int :: run[i + 5].done.Read(x) == Held(Resolve(run[i].st.phase.st.recs, x), run[i].payload)
  {
    var v, u := run[i], run[i + 4];
    assert Moves(run[i + 1], run[i + 2]) && Moves(run[i + 2], run[i + 3]) && Moves(run[i + 3], run[i + 4]);
    FlushStep(run[i + 1], run[i + 2]);
    FlushStep(run[i + 2], run[i + 3]);
    FlushStep(run[i + 3], run[i + 4]);
    RunDurable(run, i);
    CommitCovers(v.st, u.st, run[i + 5].st);
  }

  lemma {:induction false} CommitCovers(s: State, u: State, t: State)
    requires HybridLogSafety.Inv(s) && s.phase.Idle? && u.history == s.history && u.shift == s.shift
    requires u.phase.Announced? && u.phase.st == s.phase.st && CommitSync(u, t)
    ensures t.committed == |s.history|
  {
  }
}
