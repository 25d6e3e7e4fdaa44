/** The Hybrid log-state protocol: stamps on the data file (the anchor) and on
    the index file (the progress) around an appended log that is replaced by
    rename, with a process exit or a power loss possible between any two steps.

    A stamp's CRC is idealised: a stamp carries the records it stands for, and
    matches exactly the files that start with them. A generation is never drawn
    twice. Records reach the file whole.
 */
module HybridLog {
  import opened Segments

  datatype Stamp = Stamp(gen: nat, recs: seq<Mapping>)

  datatype Anchor = NoAnchor | Stable(first: Stamp) | Replacing(first: Stamp, second: Stamp) | Installing(first: Stamp)

  datatype Verdict = Unmanaged | Reject | Use(stamp: Stamp)

  /** Two logs replay to the same sectors: replay clears the tags. */
  ghost predicate SameReplay(a: seq<Mapping>, b: seq<Mapping>) {
    forall x: int :: Retag(Resolve(a, x), 0) == Retag(Resolve(b, x), 0)
  }

  predicate Bounded(recs: seq<Mapping>) { |recs| <= MAX_LOG_RECORDS }

  predicate Matches(content: seq<Mapping>, stamp: Stamp) {
    Bounded(stamp.recs) && stamp.recs <= content
  }

  /** The anchor's stamp for the generation the progress names. */
  function Committed(a: Anchor, latest: Stamp): Option<Stamp> {
    if a.NoAnchor? then None
    else if latest.gen == a.first.gen then Some(a.first)
    else if a.Replacing? && latest.gen == a.second.gen then Some(a.second)
    else None
  }

  /** inspect_log_state over one anchor, one progress and one file content. */
  function Inspect(a: Anchor, p: Option<Stamp>, content: seq<Mapping>): Verdict {
    if a.NoAnchor? then
      if p.None? then Unmanaged else Reject
    else if !Bounded(content) then Reject
    else if p.None? then
      if a.Installing? && Matches(content, a.first) then Use(a.first) else Reject
    else
      var committed := Committed(a, p.value);
      if committed.None? || !Matches(content, committed.value) then Reject
      else if |p.value.recs| >= |committed.value.recs| && Matches(content, p.value) then Use(p.value)
      else Use(committed.value)
  }

  // ----- storage ------------------------------------------------------------

  /** A small object: its cached value and every value a power loss may leave. */
  datatype Cell<!T> = Cell(now: T, disk: set<T>) {
    function Put(v: T): Cell<T> { Cell(v, disk + {v}) }
    function Sync(): Cell<T> { Cell(now, {now}) }
  }

  /** An index file's records. Once written to, a power loss may leave any
      content that starts with the first `sure` records, torn or garbage tail
      included; a synced file is left as it is. */
  datatype Log = Log(now: seq<Mapping>, sure: nat, settled: bool) {
    function Append(r: Mapping): Log { Log(now + [r], sure, false) }
    function Sync(): Log { Log(now, |now|, true) }
    function Truncate(n: nat): Log
      requires n <= |now|
    {
      if n == |now| then this else Log(now[..n], if sure < n then sure else n, false)
    }
    predicate MayLeave(c: seq<Mapping>)
      requires sure <= |now|
    {
      if settled then c == now else now[..sure] <= c && Bounded(c)
    }
  }

  datatype File = File(log: Log, progress: Cell<Option<Stamp>>)

  /** Where the owning process is. Each constructor is a point between two
      system calls of flush, index replacement or activation. */
  datatype Phase =
    | Closed
    | Dead                                                    // failed append: only exit is left
    | Idle(ino: nat, st: Stamp)
    | Appended(ino: nat, st: Stamp, rec: Mapping)              // record written, progress not yet
    | Synced(ino: nat, st: Stamp)                              // index file synced
    | Ready(ino: nat, st: Stamp, opening: bool)                // and its name
    | Announced(ino: nat, st: Stamp, opening: bool)            // stable anchor written
    | Compacting(step: nat, ino: nat, st: Stamp, n: nat, ns: Stamp)
    | Activating(step: nat, ino: nat, st: Stamp, imported: bool)

  /** Storage, process, and the bookkeeping the protocol never reads: the whole
      history of log operations, how many of them have returned, how many the
      last completed commit covered, and for each generation the difference
      between operations covered and records held. */
  datatype State = State(files: map<nat, File>, name: Cell<nat>, anchor: Cell<Anchor>, phase: Phase,
                         history: seq<Mapping>, returned: nat, committed: nat, shift: map<nat, int>)

  ghost predicate Wf(s: State) {
    && s.name.now in s.name.disk && s.name.disk <= s.files.Keys
    && s.anchor.now in s.anchor.disk
    && (forall d :: d in s.files ==>
          && s.files[d].progress.now in s.files[d].progress.disk
          && s.files[d].log.sure <= |s.files[d].log.now|
          && (s.files[d].log.settled ==> s.files[d].log.sure == |s.files[d].log.now|)
          && Bounded(s.files[d].log.now))
    && s.committed <= s.returned <= |s.history|
  }

  function SyncFile(s: State, d: nat): State
    requires d in s.files
  {
    s.(files := s.files[d := File(s.files[d].log.Sync(), s.files[d].progress.Sync())])
  }
  function SyncName(s: State): State { s.(name := s.name.Sync()) }
  function SyncAnchor(s: State): State { s.(anchor := s.anchor.Sync()) }
  function PutAnchor(s: State, a: Anchor): State { s.(anchor := s.anchor.Put(a)) }
  function PutProgress(s: State, d: nat, p: Stamp): State
    requires d in s.files
  {
    s.(files := s.files[d := File(s.files[d].log, s.files[d].progress.Put(Some(p)))])
  }
  function PutLog(s: State, d: nat, l: Log): State
    requires d in s.files
  {
    s.(files := s.files[d := File(l, s.files[d].progress)])
  }

  /** What a reopening process would read now. */
  function InspectNow(s: State): Verdict
    requires s.name.now in s.files
  {
    var f := s.files[s.name.now];
    Inspect(s.anchor.now, f.progress.now, f.log.now)
  }

  // ----- steps ----------------------------------------------------------------

  ghost predicate Init(s: State) {
    // An upstream pair without metadata, or a freshly created empty one: what it
    // holds counts as returned and committed.
    exists ino, content ::
      && Bounded(content)
      && s == State(map[ino := File(Log(content, |content|, true), Cell(None, {None}))], Cell(ino, {ino}),
                    Cell(NoAnchor, {NoAnchor}), Closed, content, |content|, |content|, map[])
  }

  /** append: the record first, then its progress; only then the call returns. */
  ghost predicate AppendRecord(s: State, t: State) {
    && s.phase.Idle? && s.phase.ino in s.files && |s.phase.st.recs| < MAX_LOG_RECORDS
    && exists r ::
         t == PutLog(s, s.phase.ino, s.files[s.phase.ino].log.Append(r)).(
                phase := Appended(s.phase.ino, s.phase.st, r), history := s.history + [r])
  }

  ghost predicate AppendProgress(s: State, t: State) {
    && s.phase.Appended? && s.phase.ino in s.files
    && var st := Stamp(s.phase.st.gen, s.phase.st.recs + [s.phase.rec]);
       t == PutProgress(s, s.phase.ino, st).(phase := Idle(s.phase.ino, st), returned := |s.history|)
  }

  /** flush: index with attributes, then its name, then the anchor. */
  ghost predicate FlushIndex(s: State, t: State) {
    && s.phase.Idle? && s.phase.ino in s.files
    && t == SyncFile(s, s.phase.ino).(phase := Synced(s.phase.ino, s.phase.st))
  }

  ghost predicate FlushName(s: State, t: State) {
    && s.phase.Synced?
    && t == SyncName(s).(phase := Ready(s.phase.ino, s.phase.st, false))
  }

  ghost predicate CommitWrite(s: State, t: State) {
    && s.phase.Ready?
    && t == PutAnchor(s, Stable(s.phase.st)).(phase := Announced(s.phase.ino, s.phase.st, s.phase.opening))
  }

  /** The commit is complete: it covers what the stamp covers, and what a
      recovery left out is no longer part of the history. */
  ghost predicate CommitSync(s: State, t: State) {
    && s.phase.Announced? && s.phase.st.gen in s.shift
    && var k := Cover(s, s.phase.st);
       && 0 <= k <= |s.history|
       && t == SyncAnchor(s).(phase := Idle(s.phase.ino, s.phase.st),
                              history := s.history[..k], returned := k, committed := k)
  }

  /** Index replacement: a new file with its own generation and progress. Its
      records replay to what the current log replays to. */
  ghost predicate CompactCreate(s: State, t: State) {
    && s.phase.Idle? && s.phase.st.gen in s.shift
    && exists n, ns: Stamp ::
         && n !in s.files && ns.gen !in s.shift && |ns.recs| <= MAX_INDEX
         && SameReplay(ns.recs, s.phase.st.recs)
         && t == s.(files := s.files[n := File(Log(ns.recs, 0, false), Cell(Some(ns), {None, Some(ns)}))],
                    shift := s.shift[ns.gen := Cover(s, s.phase.st) - |ns.recs|],
                    phase := Compacting(0, s.phase.ino, s.phase.st, n, ns))
  }

  function CompactAt(p: Phase, step: nat): Phase
    requires p.Compacting?
  {
    Compacting(step, p.ino, p.st, p.n, p.ns)
  }

  ghost predicate CompactStep(s: State, t: State) {
    && s.phase.Compacting? && s.phase.ino in s.files && s.phase.n in s.files
    && var p := s.phase;
       match p.step
       case 0 => t == SyncName(s).(phase := CompactAt(p, 1))
       case 1 => t == SyncAnchor(s).(phase := CompactAt(p, 2))
       case 2 => t == SyncFile(s, p.ino).(phase := CompactAt(p, 3))
       case 3 => t == SyncFile(s, p.n).(phase := CompactAt(p, 4))
       case 4 => t == PutAnchor(s, Replacing(p.st, p.ns)).(phase := CompactAt(p, 5))
       case 5 => t == SyncAnchor(s).(phase := CompactAt(p, 6))
       case 6 => t == s.(name := s.name.Put(p.n), phase := Synced(p.n, p.ns))   // rename, adoption
       case _ => false
  }

  /** A failed call leaves the process with the file it still owns. */
  ghost predicate Fail(s: State, t: State) {
    match s.phase
    case Appended(_, _, _) => t == s.(phase := Dead)
    case Synced(ino, st) => t == s.(phase := Idle(ino, st))
    case Ready(ino, st, opening) => t == s.(phase := if opening then Closed else Idle(ino, st))
    case Announced(ino, st, opening) => t == s.(phase := if opening then Closed else Idle(ino, st))
    case Compacting(_, ino, st, _, _) => t == s.(phase := Idle(ino, st))
    case Activating(_, _, _, _) => t == s.(phase := Closed)
    case _ => false
  }

  /** A writable open: inspect, then activate what was selected. */
  ghost predicate Open(s: State, t: State) {
    && s.phase.Closed? && s.name.now in s.files
    && var ino := s.name.now;
       match InspectNow(s)
       case Reject => false
       case Use(st) => t == s.(phase := Activating(0, ino, st, false))
       case Unmanaged =>
         exists gen :: gen !in s.shift &&
           t == s.(phase := Activating(0, ino, Stamp(gen, s.files[ino].log.now), true), shift := s.shift[gen := 0])
  }

  function ActivateAt(p: Phase, step: nat): Phase
    requires p.Activating?
  {
    Activating(step, p.ino, p.st, p.imported)
  }

  ghost predicate ActivateStep(s: State, t: State) {
    && s.phase.Activating? && s.phase.ino in s.files
    && var p := s.phase;
       match p.step
       case 0 => && |p.st.recs| <= |s.files[p.ino].log.now|
                 && t == PutLog(s, p.ino, s.files[p.ino].log.Truncate(|p.st.recs|)).(phase := ActivateAt(p, 1))
       case 1 => t == SyncAnchor(s).(phase := ActivateAt(p, 2))
       case 2 => t == SyncFile(s, p.ino).(phase := ActivateAt(p, 3))
       case 3 => t == SyncName(s).(phase := ActivateAt(p, if p.imported then 4 else 6))
       case 4 => t == PutAnchor(s, Installing(p.st)).(phase := ActivateAt(p, 5))
       case 5 => t == SyncAnchor(s).(phase := ActivateAt(p, 6))
       case 6 => t == PutProgress(s, p.ino, p.st).(phase := ActivateAt(p, 7))
       case 7 => t == SyncFile(s, p.ino).(phase := Ready(p.ino, p.st, true))
       case _ => false
  }

  /** The process ends; everything it wrote stays in the kernel's cache. */
  ghost predicate Exit(s: State, t: State) {
    t == s.(phase := Closed)
  }

  /** Power loss: each object independently falls back. Of the calls that had
      returned only those a completed commit covers are still promised. */
  ghost predicate PowerLoss(s: State, t: State) {
    && Wf(s)
    && exists ino, a, p, c ::
         && ino in s.name.disk && a in s.anchor.disk && p in s.files[ino].progress.disk
         && s.files[ino].log.MayLeave(c)
         && t == s.(files := map[ino := File(Log(c, |c|, true), Cell(p, {p}))], name := Cell(ino, {ino}),
                    anchor := Cell(a, {a}), phase := Closed, returned := s.committed)
  }

  ghost predicate Next(s: State, t: State) {
    || AppendRecord(s, t) || AppendProgress(s, t)
    || FlushIndex(s, t) || FlushName(s, t) || CommitWrite(s, t) || CommitSync(s, t)
    || CompactCreate(s, t) || CompactStep(s, t)
    || Open(s, t) || ActivateStep(s, t)
    || Fail(s, t) || Exit(s, t) || PowerLoss(s, t)
  }

  /** A run: consecutive states related by steps. */
  ghost predicate Run(states: seq<State>) {
    && |states| > 0 && Init(states[0])
    && forall i :: 0 <= i < |states| - 1 ==> Next(states[i], states[i + 1])
  }

  // ----- what a stamp covers --------------------------------------------------

  /** Operations of the history a stamp stands for. */
  function Cover(s: State, st: Stamp): int
    requires st.gen in s.shift
  {
    |st.recs| + s.shift[st.gen]
  }

  /** The stamp's records mean exactly a prefix of the history. */
  ghost predicate Good(s: State, st: Stamp) {
    && st.gen in s.shift && 0 <= Cover(s, st) <= |s.history| && Bounded(st.recs)
    && SameReplay(st.recs, s.history[..Cover(s, st)])
  }

  /** The stamp survives every power loss in file d, and loses nothing committed. */
  ghost predicate Anchored(s: State, d: nat, st: Stamp)
    requires d in s.files && s.files[d].log.sure <= |s.files[d].log.now|
  {
    && Good(s, st) && Cover(s, st) >= s.committed
    && st.recs <= s.files[d].log.now[..s.files[d].log.sure]
  }

  /** One combination a power loss may leave is usable. */
  ghost predicate PairOk(s: State, d: nat, a: Anchor, p: Option<Stamp>)
    requires d in s.files && s.files[d].log.sure <= |s.files[d].log.now|
  {
    if a.NoAnchor? then p.None?
    else if p.None? then a.Installing? && Anchored(s, d, a.first)
    else
      && Committed(a, p.value).Some?
      && Anchored(s, d, Committed(a, p.value).value)
      && Good(s, p.value)
  }

  ghost predicate Safe(s: State)
    requires Wf(s)
  {
    forall d, a, p :: d in s.name.disk && a in s.anchor.disk && p in s.files[d].progress.disk ==> PairOk(s, d, a, p)
  }

  /** While the pair may still look unmanaged, its log is the import, untouched. */
  ghost predicate Import(s: State)
    requires Wf(s)
  {
    NoAnchor in s.anchor.disk ==>
      && s.name.disk == {s.name.now}
      && s.files[s.name.now].progress.disk == {None}
      && s.files[s.name.now].log.settled && s.files[s.name.now].log.now == s.history
      && (forall a :: a in s.anchor.disk ==> a == NoAnchor || (a.Installing? && a.first.recs == s.history))
      && s.committed == s.returned == |s.history|
  }

  function Stamped(a: Anchor, p: Option<Stamp>): Option<Stamp> {
    if p.Some? then Committed(a, p.value) else if a.Installing? then Some(a.first) else None
  }

  /** What an open now selects: a prefix of the history holding every returned
      operation, and nothing anchored anywhere lies beyond it. */
  ghost predicate NowOk(s: State)
    requires Wf(s)
  {
    match InspectNow(s)
    case Reject => false
    case Unmanaged => true
    case Use(st) =>
      && Good(s, st) && Cover(s, st) >= s.returned && st.recs <= s.files[s.name.now].log.now
      && (forall a, p :: a in s.anchor.disk && p in s.files[s.name.now].progress.disk && Stamped(a, p).Some? ==>
            Stamped(a, p).value.recs <= st.recs && Stamped(a, p).value.gen == st.gen)
  }

  ghost predicate Core(s: State) {
    Wf(s) && Safe(s) && Import(s) && NowOk(s)
  }
}
