/** Every run of the log-state protocol keeps the pair recoverable. */
module HybridLogSafety {
  import opened Segments
  import opened HybridLog
  import HybridReplay

  /** The owned file holds exactly the stamp, and the progress says so. */
  ghost predicate Holding(s: State, ino: nat, st: Stamp)
    requires Wf(s)
  {
    && s.name.now == ino && s.files[ino].log.now == st.recs && s.files[ino].progress.now == Some(st)
    && Good(s, st) && Cover(s, st) >= s.returned
  }

  ghost predicate Live(s: State, ino: nat, st: Stamp)
    requires Wf(s)
  {
    Holding(s, ino, st) && Cover(s, st) == |s.history| == s.returned
  }

  ghost predicate FileSynced(s: State, d: nat, st: Stamp) {
    d in s.files && s.files[d].log.settled && s.files[d].progress.disk == {Some(st)}
  }

  ghost predicate CompactingInv(s: State, step: nat, ino: nat, st: Stamp, n: nat, ns: Stamp)
    requires Wf(s)
  {
    && Live(s, ino, st) && step <= 6
    && n in s.files && n !in s.name.disk && s.files[n].log.now == ns.recs && s.files[n].progress.now == Some(ns)
    && ns.gen != st.gen && Good(s, ns) && Cover(s, ns) == Cover(s, st)
    && (step >= 1 ==> s.name.disk == {ino})
    && (step >= 2 && step <= 4 ==> s.anchor.disk == {s.anchor.now})
    && (step >= 3 ==> FileSynced(s, ino, st))
    && (step >= 4 ==> FileSynced(s, n, ns))
    && (step == 5 ==> s.anchor.now == Replacing(st, ns))
    && (step == 6 ==> s.anchor == Cell(Replacing(st, ns), {Replacing(st, ns)}))
  }

  ghost predicate ActivatingInv(s: State, step: nat, ino: nat, st: Stamp, imported: bool)
    requires Wf(s)
  {
    && s.name.now == ino && step <= 7
    && (step >= 1 ==> s.files[ino].log.now == st.recs)
    && (imported && step <= 4 ==> InspectNow(s) == Unmanaged && s.files[ino].log.now == st.recs)
    && (imported && step <= 4 ==> Good(s, st) && Cover(s, st) == |s.history|)
    && (imported || step < 4 || step > 5)
    && (!imported || step > 4 ==> InspectNow(s) == Use(st))
    && (step >= 2 && step <= 4 ==> s.anchor.disk == {s.anchor.now})
    && (step == 3 ==> s.files[ino].log.settled && s.files[ino].progress.disk == {s.files[ino].progress.now})
    && (4 <= step <= 6 ==> s.files[ino].log.settled && s.files[ino].progress.disk == {s.files[ino].progress.now})
    && (step >= 4 ==> s.name.disk == {ino})
    && (step == 5 ==> s.anchor.now == Installing(st))
    && (step >= 6 ==> s.anchor.disk == {s.anchor.now})
    && (step == 7 ==> s.files[ino].log.settled && s.files[ino].progress.now == Some(st))
  }

  ghost predicate PhaseInv(s: State)
    requires Wf(s)
  {
    match s.phase
    case Closed => true
    case Dead => true
    case Idle(ino, st) => Live(s, ino, st)
    case Appended(ino, st, rec) =>
      && s.name.now == ino && s.files[ino].log.now == st.recs + [rec] && s.files[ino].progress.now == Some(st)
      && s.files[ino].log.sure <= |st.recs| && !s.files[ino].log.settled && |st.recs| < MAX_LOG_RECORDS
      && Good(s, st) && Cover(s, st) == s.returned == |s.history| - 1 && s.history[s.returned] == rec
    case Synced(ino, st) => Live(s, ino, st) && FileSynced(s, ino, st)
    case Ready(ino, st, opening) =>
      && (if opening then Holding(s, ino, st) else Live(s, ino, st))
      && FileSynced(s, ino, st) && s.name.disk == {ino}
    case Announced(ino, st, opening) =>
      && (if opening then Holding(s, ino, st) else Live(s, ino, st))
      && FileSynced(s, ino, st) && s.name.disk == {ino} && s.anchor.now == Stable(st)
    case Compacting(step, ino, st, n, ns) => CompactingInv(s, step, ino, st, n, ns)
    case Activating(step, ino, st, imported) => ActivatingInv(s, step, ino, st, imported)
  }

  ghost predicate Inv(s: State) {
    Core(s) && PhaseInv(s)
  }

  lemma {:induction false} PrefixTrans(a: seq<Mapping>, b: seq<Mapping>, c: seq<Mapping>)
    requires a <= b <= c
    ensures a <= c
  {
    assert c[..|a|] == b[..|a|];
  }

  /** A usable combination stays usable while its anchored stamp stays sure. */
  lemma {:induction false} PairOkFrame(s: State, t: State, d: nat, a: Anchor, p: Option<Stamp>)
    requires d in s.files && s.files[d].log.sure <= |s.files[d].log.now|
    requires d in t.files && t.files[d].log.sure <= |t.files[d].log.now|
    requires PairOk(s, d, a, p) && t.history == s.history && t.shift == s.shift && t.committed == s.committed
    requires Stamped(a, p).Some? ==> Stamped(a, p).value.recs <= t.files[d].log.now[..t.files[d].log.sure]
    ensures PairOk(t, d, a, p)
  {
  }

  // ----- single effects keep the core -----------------------------------------

  lemma {:induction false} SyncFileCore(s: State, d: nat)
    requires Core(s) && d in s.files
    ensures Core(SyncFile(s, d)) && InspectNow(SyncFile(s, d)) == InspectNow(s)
  {
    var t := SyncFile(s, d);
    forall e, a, p | e in t.name.disk && a in t.anchor.disk && p in t.files[e].progress.disk
      ensures PairOk(t, e, a, p)
    {
      assert PairOk(s, e, a, p);
      PairOkFrame(s, t, e, a, p);
    }
  }

  lemma {:induction false} SyncNameCore(s: State)
    requires Core(s)
    ensures Core(SyncName(s)) && InspectNow(SyncName(s)) == InspectNow(s)
  {
    var t := SyncName(s);
    forall e, a, p | e in t.name.disk && a in t.anchor.disk && p in t.files[e].progress.disk
      ensures PairOk(t, e, a, p)
    {
      assert PairOk(s, e, a, p);
      PairOkFrame(s, t, e, a, p);
    }
  }

  lemma {:induction false} SyncAnchorCore(s: State)
    requires Core(s)
    ensures Core(SyncAnchor(s)) && InspectNow(SyncAnchor(s)) == InspectNow(s)
  {
    var t := SyncAnchor(s);
    forall e, a, p | e in t.name.disk && a in t.anchor.disk && p in t.files[e].progress.disk
      ensures PairOk(t, e, a, p)
    {
      assert PairOk(s, e, a, p);
      PairOkFrame(s, t, e, a, p);
    }
  }

  /** With the file holding a stamp its progress names, that stamp is selected. */
  lemma {:induction false} HoldingSelects(s: State, ino: nat, st: Stamp)
    requires Wf(s) && Safe(s) && Holding(s, ino, st)
    ensures InspectNow(s) == Use(st)
  {
    assert PairOk(s, ino, s.anchor.now, Some(st));
  }

  /** Nothing depends on the phase. */
  lemma {:induction false} PhaseCore(s: State, ph: Phase)
    requires Core(s)
    ensures Core(s.(phase := ph)) && InspectNow(s.(phase := ph)) == InspectNow(s)
  {
    var t := s.(phase := ph);
    forall e, a, p | e in t.name.disk && a in t.anchor.disk && p in t.files[e].progress.disk
      ensures PairOk(t, e, a, p)
    {
      assert PairOk(s, e, a, p);
      PairOkFrame(s, t, e, a, p);
    }
  }

  // ----- effects that add a choice ---------------------------------------------

  /** A new anchor keeps the core when it fits every file and progress a power
      loss may leave, and the held stamp stays the selected one. */
  lemma {:induction false} PutAnchorCore(s: State, ino: nat, st: Stamp, a: Anchor)
    requires Core(s) && Holding(s, ino, st) && a != NoAnchor
    requires forall d, p :: d in s.name.disk && p in s.files[d].progress.disk ==> PairOk(s, d, a, p)
    ensures Core(PutAnchor(s, a)) && InspectNow(PutAnchor(s, a)) == Use(st)
  {
    var t := PutAnchor(s, a);
    forall e, b, p | e in t.name.disk && b in t.anchor.disk && p in t.files[e].progress.disk
      ensures PairOk(t, e, b, p)
    {
      assert PairOk(s, e, b, p);
      PairOkFrame(s, t, e, b, p);
    }
    assert NoAnchor in s.anchor.disk ==> PairOk(s, ino, NoAnchor, Some(st));
    HoldingSelects(s, ino, st);
    HoldingSelects(t, ino, st);
  }

  /** The next progress stamp is of the generation every anchor already names. */
  ghost predicate NextStamp(s: State, ino: nat, next: Stamp)
    requires Wf(s)
  {
    && s.name.now == ino && Good(s, next) && s.files[ino].log.now == next.recs && NoAnchor !in s.anchor.disk
    && (forall a :: a in s.anchor.disk ==> Committed(a, next).Some? && Anchored(s, ino, Committed(a, next).value))
  }

  lemma {:induction false} PutProgressSafe(s: State, ino: nat, next: Stamp)
    requires Wf(s) && Safe(s) && NextStamp(s, ino, next)
    ensures Wf(PutProgress(s, ino, next)) && Safe(PutProgress(s, ino, next))
  {
    var t := PutProgress(s, ino, next);
    forall e, a, p | e in t.name.disk && a in t.anchor.disk && p in t.files[e].progress.disk
      ensures PairOk(t, e, a, p)
    {
      if e != ino || p in s.files[e].progress.disk {
        assert PairOk(s, e, a, p);
      } else {
        assert p == Some(next) && PairOk(s, e, a, p);
      }
      PairOkFrame(s, t, e, a, p);
    }
  }

  lemma {:induction false} PutProgressCore(s: State, ino: nat, next: Stamp)
    requires Wf(s) && Safe(s) && NextStamp(s, ino, next) && Cover(s, next) >= s.returned
    requires forall a, p :: a in s.anchor.disk && p in s.files[ino].progress.disk && Stamped(a, p).Some? ==>
              Stamped(a, p).value.gen == next.gen
    ensures Core(PutProgress(s, ino, next)) && Holding(PutProgress(s, ino, next), ino, next)
    ensures InspectNow(PutProgress(s, ino, next)) == Use(next)
  {
    var t := PutProgress(s, ino, next);
    PutProgressSafe(s, ino, next);
    HoldingSelects(t, ino, next);
    forall a, p | a in t.anchor.disk && p in t.files[ino].progress.disk && Stamped(a, p).Some?
      ensures Stamped(a, p).value.recs <= next.recs && Stamped(a, p).value.gen == next.gen
    {
      assert PairOk(t, ino, a, p);
      PrefixTrans(Stamped(a, p).value.recs, t.files[ino].log.now[..t.files[ino].log.sure], next.recs);
    }
  }

  // ----- every step keeps the invariant ---------------------------------------

  lemma {:induction false} InitInv(s: State)
    requires Init(s)
    ensures Inv(s)
  {
  }

  lemma {:induction false} SameReplayAppend(a: seq<Mapping>, b: seq<Mapping>, r: Mapping)
    requires SameReplay(a, b)
    ensures SameReplay(a + [r], b + [r])
  {
    forall x: int
      ensures Retag(Resolve(a + [r], x), 0) == Retag(Resolve(b + [r], x), 0)
    {
      ResolveConcat(a, [r], x);
      ResolveConcat(b, [r], x);
    }
  }

  lemma {:induction false} GoodGrows(s: State, t: State, st: Stamp)
    requires Good(s, st) && s.history <= t.history && st.gen in t.shift && t.shift[st.gen] == s.shift[st.gen]
    ensures Good(t, st)
  {
    assert t.history[..Cover(s, st)] == s.history[..Cover(s, st)];
  }

  lemma {:induction false} AppendRecordSafe(s: State, t: State)
    requires Inv(s) && AppendRecord(s, t)
    ensures Wf(t) && Safe(t)
  {
    var ino := s.phase.ino;
    forall e, a, p | e in t.name.disk && a in t.anchor.disk && p in t.files[e].progress.disk
      ensures PairOk(t, e, a, p)
    {
      assert PairOk(s, e, a, p);
      forall x | Good(s, x)
        ensures Good(t, x)
      {
        GoodGrows(s, t, x);
      }
      assert e == ino ==> t.files[e].log.now[..t.files[e].log.sure] == s.files[e].log.now[..s.files[e].log.sure];
    }
  }

  lemma {:induction false} AppendRecordInv(s: State, t: State)
    requires Inv(s) && AppendRecord(s, t)
    ensures Inv(t)
  {
    var ino, st := s.phase.ino, s.phase.st;
    assert PairOk(s, ino, s.anchor.now, Some(st));
    AppendRecordSafe(s, t);
    GoodGrows(s, t, st);
    HoldingSelects(s, ino, st);
    assert PairOk(t, ino, t.anchor.now, Some(st));
    assert InspectNow(t) == Use(st);
  }

  /** Safety does not depend on the phase or on what has returned. */
  lemma {:induction false} SafeSame(s: State, t: State)
    requires Wf(s) && Safe(s) && Wf(t)
    requires t == s.(phase := t.phase, returned := t.returned)
    ensures Safe(t)
  {
    forall e, a, p | e in t.name.disk && a in t.anchor.disk && p in t.files[e].progress.disk
      ensures PairOk(t, e, a, p)
    {
      assert PairOk(s, e, a, p);
      PairOkFrame(s, t, e, a, p);
    }
  }

  /** The record just appended makes the next stamp. */
  lemma {:induction false} AppendedNext(s: State, m: State, next: Stamp)
    requires Inv(s) && s.phase.Appended? && next == Stamp(s.phase.st.gen, s.phase.st.recs + [s.phase.rec])
    requires m == s.(phase := m.phase, returned := |s.history|) && Wf(m) && Safe(m)
    ensures NextStamp(m, s.phase.ino, next) && Cover(m, next) == |s.history|
  {
    var ino, st, rec := s.phase.ino, s.phase.st, s.phase.rec;
    forall a | a in s.anchor.disk
      ensures a != NoAnchor && Committed(a, next).Some? && Anchored(m, ino, Committed(a, next).value)
    {
      assert PairOk(m, ino, a, Some(st));
    }
    SameReplayAppend(st.recs, s.history[..s.returned], rec);
    assert s.history[..s.returned] + [rec] == s.history[..|s.history|];
  }

  lemma {:induction false} AppendProgressInv(s: State, t: State)
    requires Inv(s) && AppendProgress(s, t)
    ensures Inv(t)
  {
    var ino, st, rec := s.phase.ino, s.phase.st, s.phase.rec;
    var next := Stamp(st.gen, st.recs + [rec]);
    var m := s.(phase := Idle(ino, next), returned := |s.history|);
    assert t == PutProgress(m, ino, next);
    SafeSame(s, m);
    AppendedNext(s, m, next);
    assert InspectNow(s) == Use(st) by { assert PairOk(s, ino, s.anchor.now, Some(st)); }
    PutProgressCore(m, ino, next);
  }

  lemma {:induction false} FlushInv(s: State, t: State)
    requires Inv(s) && (FlushIndex(s, t) || FlushName(s, t))
    ensures Inv(t)
  {
    if FlushIndex(s, t) {
      SyncFileCore(s, s.phase.ino);
      PhaseCore(SyncFile(s, s.phase.ino), t.phase);
    } else {
      SyncNameCore(s);
      PhaseCore(SyncName(s), t.phase);
    }
  }

  lemma {:induction false} CommitWriteInv(s: State, t: State)
    requires Inv(s) && CommitWrite(s, t)
    ensures Inv(t)
  {
    var ino, st := s.phase.ino, s.phase.st;
    assert s.files[ino].log.now[..s.files[ino].log.sure] == st.recs;
    PutAnchorCore(s, ino, st, Stable(st));
    PhaseCore(PutAnchor(s, Stable(st)), t.phase);
  }

  lemma {:induction false} CommitSyncInv(s: State, t: State)
    requires Inv(s) && CommitSync(s, t)
    ensures Inv(t)
  {
    var ino, st := s.phase.ino, s.phase.st;
    var k := Cover(s, st);
    assert t.history[..k] == s.history[..k];
    assert Good(t, st);
    assert t.files[ino].log.now[..t.files[ino].log.sure] == st.recs;
    assert Anchored(t, ino, st);
    assert PairOk(t, ino, Stable(st), Some(st));
    HoldingSelects(t, ino, st);
  }

  lemma {:induction false} PairOkMore(s: State, t: State, d: nat, a: Anchor, p: Option<Stamp>)
    requires d in s.files && d in t.files && t.files[d] == s.files[d] && s.files[d].log.sure <= |s.files[d].log.now|
    requires PairOk(s, d, a, p) && t.history == s.history && t.committed == s.committed
    requires forall g :: g in s.shift ==> g in t.shift && t.shift[g] == s.shift[g]
    ensures PairOk(t, d, a, p)
  {
  }

  /** Another file, under no name yet, changes nothing about the named ones. */
  lemma {:induction false} CompactCreateSafe(s: State, t: State)
    requires Wf(s) && Safe(s) && CompactCreate(s, t)
    ensures Wf(t) && Safe(t)
  {
    hide PairOk;
    assert Wf(t);
    forall e, a, p | e in t.name.disk && a in t.anchor.disk && p in t.files[e].progress.disk
      ensures PairOk(t, e, a, p)
    {
      assert PairOk(s, e, a, p);
      PairOkMore(s, t, e, a, p);
    }
  }

  /** Its stamp covers what the current one covers. */
  lemma {:induction false} CompactCreateStamp(s: State, t: State)
    requires Inv(s) && CompactCreate(s, t)
    ensures t.phase.ns.gen != s.phase.st.gen && Good(t, t.phase.ns) && Cover(t, t.phase.ns) == Cover(s, s.phase.st)
    ensures forall x :: Good(s, x) ==> Good(t, x) && Cover(t, x) == Cover(s, x)
  {
  }

  lemma {:induction false} CompactCreateInv(s: State, t: State)
    requires Inv(s) && CompactCreate(s, t)
    ensures Inv(t)
  {
    CompactCreateSafe(s, t);
    CompactCreateStamp(s, t);
    HoldingSelects(s, s.phase.ino, s.phase.st);
    HoldingSelects(t, s.phase.ino, s.phase.st);
  }

  lemma {:induction false} CompactSyncInv(s: State, t: State)
    requires Inv(s) && CompactStep(s, t) && s.phase.step in {0, 1, 5}
    ensures Inv(t)
  {
    if s.phase.step == 0 {
      SyncNameCore(s);
      PhaseCore(SyncName(s), t.phase);
    } else {
      SyncAnchorCore(s);
      PhaseCore(SyncAnchor(s), t.phase);
    }
  }

  lemma {:induction false} CompactFileInv(s: State, t: State)
    requires Inv(s) && CompactStep(s, t) && s.phase.step in {2, 3}
    ensures Inv(t)
  {
    var d := if s.phase.step == 2 then s.phase.ino else s.phase.n;
    SyncFileCore(s, d);
    PhaseCore(SyncFile(s, d), t.phase);
  }

  lemma {:induction false} CompactAnnounceInv(s: State, t: State)
    requires Inv(s) && CompactStep(s, t) && s.phase.step == 4
    ensures Inv(t)
  {
    var p := s.phase;
    assert s.files[p.ino].log.now[..s.files[p.ino].log.sure] == p.st.recs;
    PutAnchorCore(s, p.ino, p.st, Replacing(p.st, p.ns));
    PhaseCore(PutAnchor(s, Replacing(p.st, p.ns)), t.phase);
  }

  lemma {:induction false} CompactStepInv(s: State, t: State)
    requires Inv(s) && CompactStep(s, t)
    ensures Inv(t)
  {
    match s.phase.step
    case 2 => CompactFileInv(s, t);
    case 3 => CompactFileInv(s, t);
    case 4 => CompactAnnounceInv(s, t);
    case 6 => RenameInv(s, t);
    case _ => CompactSyncInv(s, t);
  }

  lemma {:induction false} RenameInv(s: State, t: State)
    requires Inv(s) && s.phase.Compacting? && s.phase.step == 6 && CompactStep(s, t)
    ensures Inv(t)
  {
    var p := s.phase;
    assert t.files[p.n].log.now[..t.files[p.n].log.sure] == p.ns.recs;
    forall e, a, q | e in t.name.disk && a in t.anchor.disk && q in t.files[e].progress.disk
      ensures PairOk(t, e, a, q)
    {
      if e == p.ino { assert PairOk(s, e, a, q); } else { assert Anchored(t, p.n, p.ns); }
    }
    HoldingSelects(t, p.n, p.ns);
  }

  lemma {:induction false} FailInv(s: State, t: State)
    requires Inv(s) && Fail(s, t)
    ensures Inv(t)
  {
    PhaseCore(s, t.phase);
  }

  lemma {:induction false} OpenInv(s: State, t: State)
    requires Inv(s) && Open(s, t)
    ensures Inv(t)
  {
    var ino := s.name.now;
    if InspectNow(s).Use? {
      PhaseCore(s, t.phase);
    } else {
      forall e, a, p | e in t.name.disk && a in t.anchor.disk && p in t.files[e].progress.disk
        ensures PairOk(t, e, a, p)
      {
        assert PairOk(s, e, a, p);
      }
      var st := t.phase.st;
      assert t.history[..Cover(t, st)] == t.history;
      assert Good(t, st);
    }
  }

  /** Dropping what lies beyond the selected stamp does not change the selection. */
  lemma {:induction false} InspectTruncated(a: Anchor, p: Option<Stamp>, c: seq<Mapping>, st: Stamp)
    requires Inspect(a, p, c) == Use(st)
    ensures st.recs <= c && Inspect(a, p, c[..|st.recs|]) == Use(st)
    ensures Stamped(a, p).Some? && Stamped(a, p).value.recs <= st.recs && Stamped(a, p).value.gen == st.gen
  {
    var cut := c[..|st.recs|];
    assert cut == st.recs;
    if p.Some? {
      var k := Committed(a, p.value).value;
      assert k.recs <= st.recs by { assert k.recs == c[..|k.recs|]; }
    }
  }

  lemma {:induction false} TruncatedSure(s: State, t: State, k: Stamp)
    requires Inv(s) && s.phase.Activating? && s.phase.step == 0 && ActivateStep(s, t)
    requires k.recs <= s.phase.st.recs <= s.files[s.phase.ino].log.now
    requires k.recs <= s.files[s.phase.ino].log.now[..s.files[s.phase.ino].log.sure]
    ensures k.recs <= t.files[s.phase.ino].log.now[..t.files[s.phase.ino].log.sure]
  {
    var f, g := s.files[s.phase.ino].log, t.files[s.phase.ino].log;
    assert g.now[..g.sure] == f.now[..g.sure];
    assert f.now[..g.sure][..|k.recs|] == f.now[..|k.recs|];
  }

  lemma {:induction false} TruncateSafe(s: State, t: State)
    requires Inv(s) && s.phase.Activating? && s.phase.step == 0 && ActivateStep(s, t) && !s.phase.imported
    ensures Wf(t) && Safe(t)
  {
    var ino, st := s.phase.ino, s.phase.st;
    InspectTruncated(s.anchor.now, s.files[ino].progress.now, s.files[ino].log.now, st);
    forall e, a, p | e in t.name.disk && a in t.anchor.disk && p in t.files[e].progress.disk
      ensures PairOk(t, e, a, p)
    {
      assert PairOk(s, e, a, p);
      if e == ino && Stamped(a, p).Some? { TruncatedSure(s, t, Stamped(a, p).value); }
      PairOkFrame(s, t, e, a, p);
    }
  }

  /** Dropping the unverified tail changes neither the selection nor anything
      a power loss may fall back to. */
  lemma {:induction false} TruncateInv(s: State, t: State)
    requires Inv(s) && s.phase.Activating? && s.phase.step == 0 && ActivateStep(s, t)
    ensures Inv(t)
  {
    var ino, st := s.phase.ino, s.phase.st;
    if |st.recs| == |s.files[ino].log.now| {
      assert PutLog(s, ino, s.files[ino].log).files == s.files;
      PhaseCore(s, t.phase);
      if InspectNow(s).Use? { InspectTruncated(s.anchor.now, s.files[ino].progress.now, s.files[ino].log.now, st); }
    } else {
      InspectTruncated(s.anchor.now, s.files[ino].progress.now, s.files[ino].log.now, st);
      TruncateSafe(s, t);
      assert t.files[ino].log.now == s.files[ino].log.now[..|st.recs|];
    }
  }

  lemma {:induction false} ActivateSyncInv(s: State, t: State)
    requires Inv(s) && ActivateStep(s, t) && s.phase.step in {1, 3, 5}
    ensures Inv(t)
  {
    if s.phase.step == 3 {
      SyncNameCore(s);
      PhaseCore(SyncName(s), t.phase);
    } else {
      SyncAnchorCore(s);
      PhaseCore(SyncAnchor(s), t.phase);
    }
  }

  lemma {:induction false} ActivateFileInv(s: State, t: State)
    requires Inv(s) && ActivateStep(s, t) && s.phase.step in {2, 7}
    ensures Inv(t)
  {
    SyncFileCore(s, s.phase.ino);
    PhaseCore(SyncFile(s, s.phase.ino), t.phase);
  }

  lemma {:induction false} ActivateStepInv(s: State, t: State)
    requires Inv(s) && ActivateStep(s, t)
    ensures Inv(t)
  {
    match s.phase.step
    case 0 => TruncateInv(s, t);
    case 2 => ActivateFileInv(s, t);
    case 4 => InstallInv(s, t);
    case 6 => PublishInv(s, t);
    case 7 => ActivateFileInv(s, t);
    case _ => ActivateSyncInv(s, t);
  }

  lemma {:induction false} InstallInv(s: State, t: State)
    requires Inv(s) && s.phase.Activating? && s.phase.step == 4 && ActivateStep(s, t)
    ensures Inv(t)
  {
    var ino, st := s.phase.ino, s.phase.st;
    assert s.anchor.now == NoAnchor;
    assert t.files[ino].log.now[..t.files[ino].log.sure] == st.recs;
    forall e, a, p | e in t.name.disk && a in t.anchor.disk && p in t.files[e].progress.disk
      ensures PairOk(t, e, a, p)
    {
      if a == NoAnchor { assert PairOk(s, e, a, p); } else { assert Anchored(t, ino, st); }
    }
    assert InspectNow(t) == Use(st);
  }

  lemma {:induction false} PublishInv(s: State, t: State)
    requires Inv(s) && s.phase.Activating? && s.phase.step == 6 && ActivateStep(s, t)
    ensures Inv(t)
  {
    var ino, st := s.phase.ino, s.phase.st;
    var a := s.anchor.now;
    assert PairOk(s, ino, a, s.files[ino].progress.now);
    PutProgressCore(s, ino, st);
    PhaseCore(PutProgress(s, ino, st), t.phase);
  }

  /** Any surviving combination is accepted, and what it selects keeps every
      committed operation. */
  lemma {:induction false} ChoiceOk(s: State, ino: nat, a: Anchor, p: Option<Stamp>, c: seq<Mapping>)
    requires Wf(s) && Safe(s) && ino in s.name.disk && a in s.anchor.disk && p in s.files[ino].progress.disk
    requires s.files[ino].log.MayLeave(c)
    ensures Inspect(a, p, c) != Reject && Bounded(c)
    ensures Inspect(a, p, c).Use? ==> Good(s, Inspect(a, p, c).stamp) && Cover(s, Inspect(a, p, c).stamp) >= s.committed
    ensures Stamped(a, p).Some? ==> Stamped(a, p).value.recs <= c
  {
    assert PairOk(s, ino, a, p);
    if Stamped(a, p).Some? {
      var f := s.files[ino].log;
      PrefixTrans(Stamped(a, p).value.recs, f.now[..f.sure], if f.settled then f.now else c);
    }
  }

  /** The one combination that is left was usable before. */
  lemma {:induction false} PowerLossSafe(s: State, t: State)
    requires Inv(s) && PowerLoss(s, t)
    ensures Wf(t) && Safe(t)
  {
    var ino, a := t.name.now, t.anchor.now;
    var p, c := t.files[ino].progress.now, t.files[ino].log.now;
    ChoiceOk(s, ino, a, p, c);
    assert PairOk(s, ino, a, p);
    assert c[..|c|] == c;
    PairOkFrame(s, t, ino, a, p);
  }

  /** What it selects keeps everything committed. */
  lemma {:induction false} PowerLossNow(s: State, t: State)
    requires Core(s) && PowerLoss(s, t) && Wf(t)
    ensures NowOk(t)
  {
    hide Import;
    hide Safe;
    hide SameReplay;
    var ino, a := t.name.now, t.anchor.now;
    var p, c := t.files[ino].progress.now, t.files[ino].log.now;
    ChoiceOk(s, ino, a, p, c);
    if Inspect(a, p, c).Use? { InspectTruncated(a, p, c, Inspect(a, p, c).stamp); }
  }

  lemma {:induction false} PowerLossImport(s: State, t: State)
    requires Core(s) && PowerLoss(s, t) && Wf(t)
    ensures Import(t)
  {
    hide Safe;
    hide NowOk;
  }

  lemma {:induction false} PowerLossInv(s: State, t: State)
    requires Inv(s) && PowerLoss(s, t)
    ensures Inv(t)
  {
    PowerLossSafe(s, t);
    PowerLossNow(s, t);
    PowerLossImport(s, t);
  }

  lemma {:induction false} NextInv(s: State, t: State)
    requires Inv(s) && Next(s, t)
    ensures Inv(t)
  {
    if AppendRecord(s, t) { AppendRecordInv(s, t); }
    else if AppendProgress(s, t) { AppendProgressInv(s, t); }
    else if FlushIndex(s, t) || FlushName(s, t) { FlushInv(s, t); }
    else if CommitWrite(s, t) { CommitWriteInv(s, t); }
    else if CommitSync(s, t) { CommitSyncInv(s, t); }
    else if CompactCreate(s, t) { CompactCreateInv(s, t); }
    else if CompactStep(s, t) { CompactStepInv(s, t); }
    else if Open(s, t) { OpenInv(s, t); }
    else if ActivateStep(s, t) { ActivateStepInv(s, t); }
    else if Fail(s, t) { FailInv(s, t); }
    else if Exit(s, t) { PhaseCore(s, Closed); }
    else { PowerLossInv(s, t); }
  }

  /** What the theorems compare is what replay computes: logs replay to the same
      live sectors exactly when they are the same up to tags. */
  lemma {:induction false} SameReplayIsReplay(a: seq<Mapping>, b: seq<Mapping>, sectors: nat, dataSectors: nat)
    requires HybridReplay.Records(a, sectors, dataSectors) && HybridReplay.Records(b, sectors, dataSectors)
    requires dataSectors < NO_PHYSICAL
    ensures SameReplay(a, b) <==> SameMeaning(HybridReplay.Live(a), HybridReplay.Live(b))
  {
    forall x: int
      ensures Resolve(HybridReplay.Live(a), x) == Retag(Resolve(a, x), 0)
      ensures Resolve(HybridReplay.Live(b), x) == Retag(Resolve(b, x), 0)
    {
      HybridReplay.LiveMeaning(a, sectors, dataSectors, x);
      HybridReplay.LiveMeaning(b, sectors, dataSectors, x);
    }
  }

  lemma {:induction false} RunInv(states: seq<State>, i: nat)
    requires Run(states) && i < |states|
    ensures Inv(states[i])
  {
    if i == 0 {
      InitInv(states[0]);
    } else {
      RunInv(states, i - 1);
      NextInv(states[i - 1], states[i]);
    }
  }

  /** At every point of every run, inspection accepts the pair. What it selects
      means exactly the first so-many operations of the history: at least every
      operation that had returned if only processes died, at least everything
      the last completed commit covered after a power loss. */
  lemma {:induction false} RecoveryTheorem(states: seq<State>, i: nat)
    requires Run(states) && i < |states|
    ensures Wf(states[i]) && InspectNow(states[i]) != Reject
    ensures var s := states[i];
      InspectNow(s).Use? ==>
        && var st := InspectNow(s).stamp;
        && st.gen in s.shift && s.committed <= s.returned <= Cover(s, st) <= |s.history|
        && SameReplay(st.recs, s.history[..Cover(s, st)])
    ensures var s := states[i];
      InspectNow(s).Unmanaged? ==> s.files[s.name.now].log.now == s.history && s.committed == s.returned == |s.history|
  {
    RunInv(states, i);
  }

  /** The same for any combination of surviving values, without taking the
      power-loss step: no choice of what each unsynced object falls back to is
      rejected or loses committed operations. */
  lemma {:induction false} PowerLossTheorem(states: seq<State>, i: nat, ino: nat, a: Anchor, p: Option<Stamp>,
                                            c: seq<Mapping>)
    requires Run(states) && i < |states| && Wf(states[i])
    requires ino in states[i].name.disk && a in states[i].anchor.disk
    requires p in states[i].files[ino].progress.disk && states[i].files[ino].log.MayLeave(c)
    ensures Inspect(a, p, c) != Reject
    ensures var s := states[i];
      Inspect(a, p, c).Use? ==>
        && var st := Inspect(a, p, c).stamp;
        && st.gen in s.shift && s.committed <= Cover(s, st) <= |s.history|
        && SameReplay(st.recs, s.history[..Cover(s, st)])
    ensures Inspect(a, p, c).Unmanaged? ==> c == states[i].history && states[i].committed == |states[i].history|
  {
    RunInv(states, i);
    ChoiceOk(states[i], ino, a, p, c);
  }
}
