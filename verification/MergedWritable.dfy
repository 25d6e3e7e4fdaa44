/** The merged view of a writable top over immutable lowers: its index is
    rebuilt by a full merge or spliced locally after a contained change. */
module MergedWritable {
  import opened Segments
  import opened LayerMerge

  /** The old snapshot with [lo, hi) taken from the top. */
  function Spliced(prior: seq<Mapping>, top: seq<Mapping>, lo: nat, hi: nat, s: int): Sector {
    if lo <= s < hi then Retag(Resolve(top, s), 0) else Resolve(prior, s)
  }

  /** `next` is the splice up to sector y and empty from there on. */
  ghost predicate Upto(next: seq<Mapping>, prior: seq<Mapping>, top: seq<Mapping>, lo: nat, hi: nat, y: int) {
    && Index(next) && Within(next, 0, y)
    && forall s: int :: Resolve(next, s) == if s < y then Spliced(prior, top, lo, hi, s) else Hole
  }

  lemma {:induction false} PushUpto(next: seq<Mapping>, m: Mapping, prior: seq<Mapping>, top: seq<Mapping>, lo: nat,
                                    hi: nat, y: nat)
    requires Upto(next, prior, top, lo, hi, y) && y <= m.offset && 0 < m.length <= MAX_LENGTH
    requires forall s: int :: y <= s < m.offset ==> Spliced(prior, top, lo, hi, s) == Hole
    requires forall s: int :: m.Covers(s) ==> Spliced(prior, top, lo, hi, s) == m.At(s)
    ensures Upto(Push(next, m), prior, top, lo, hi, m.End())
  {
    PushIndex(next, m, 0);
    forall s: int
      ensures Resolve(Push(next, m), s) == if s < m.End() then Spliced(prior, top, lo, hi, s) else Hole
    {
      ResolvePush(next, m, s);
    }
  }

  /** Copying the old snapshot's suffix verbatim completes the splice. */
  lemma {:induction false} SuffixUpto(next: seq<Mapping>, j: nat, prior: seq<Mapping>, top: seq<Mapping>, lo: nat,
                                      hi: nat, y: nat)
    requires Index(prior) && j <= |prior| && Upto(next, prior, top, lo, hi, y) && hi <= y
    requires Within(prior, 0, MAX_OFFSET) && y <= MAX_OFFSET
    requires forall i :: 0 <= i < j ==> prior[i].End() <= y
    requires j < |prior| ==> y <= prior[j].offset
    ensures Upto(next + prior[j..], prior, top, lo, hi, MAX_OFFSET)
  {
    ConcatIndex(next, prior[j..], 0, y, MAX_OFFSET);
    forall s: int
      ensures Resolve(next + prior[j..], s) == if s < MAX_OFFSET then Spliced(prior, top, lo, hi, s) else Hole
    {
      ResolveConcat(next, prior[j..], s);
      ResolveDrop(prior, j, s);
      if s < y { ResolveNone(prior[j..], s); }
      if s >= MAX_OFFSET { ResolveOutside(prior, 0, MAX_OFFSET, s); }
    }
  }

  /** The part of the old snapshot before `lo`: whole segments, then the clipped
      head of the one crossing it. */
  method CopyPrefix(prior: seq<Mapping>, ghost top: seq<Mapping>, lo: nat, ghost hi: nat) returns (next: seq<Mapping>)
    requires Index(prior) && lo <= hi
    ensures Upto(next, prior, top, lo, hi, lo)
  {
    var first := UpperBound(prior, lo);
    next := prior[..first];
    forall s: int
      ensures Resolve(next, s) == if first < |prior| && s >= prior[first].offset then Hole else Resolve(prior, s)
      ensures s >= lo ==> Resolve(next, s) == Hole
    {
      ResolveTake(prior, first, s);
      if s >= lo { ResolveNone(next, s); }
    }
    if first < |prior| && prior[first].offset < lo {
      var left := prior[first].Head(lo - prior[first].offset);
      forall s: int | left.Covers(s)
        ensures Resolve(prior, s) == left.At(s)
      {
        ResolveAt(prior, first, s);
      }
      assert Upto(next, prior, top, lo, hi, left.offset);
      PushUpto(next, left, prior, top, lo, hi, left.offset);
      next := Push(next, left);
    }
  }

  /** The top's segments inside [lo, hi). Stops at the first sector the top
      does not cover: a hole may need a lower layer. */
  method AppendTop(prefix: seq<Mapping>, ghost prior: seq<Mapping>, top: seq<Mapping>, lo: nat, hi: nat)
    returns (next: seq<Mapping>, cursor: nat)
    requires Index(top) && lo < hi && Upto(prefix, prior, top, lo, hi, lo)
    ensures lo <= cursor <= hi && Upto(next, prior, top, lo, hi, cursor)
    ensures forall s: int :: lo <= s < cursor ==> Resolve(top, s) != Hole
  {
    next, cursor := prefix, lo;
    var k := UpperBound(top, lo);
    while k < |top| && top[k].offset < hi
      invariant lo <= cursor <= hi && 0 <= k <= |top|
      invariant k < |top| && top[k].offset < hi ==> cursor < hi && cursor < top[k].End()
      invariant Upto(next, prior, top, lo, hi, cursor)
      invariant forall s: int :: lo <= s < cursor ==> Resolve(top, s) != Hole
    {
      var first := if lo < top[k].offset then top[k].offset else lo;
      if first != cursor { return; }
      var c := Clip(top[k], lo, hi, 0);
      forall s: int | c.Covers(s)
        ensures Retag(Resolve(top, s), 0) == c.At(s) && Resolve(top, s) != Hole
      {
        ClipMeaning(top, k, lo, hi, 0, s);
      }
      ClipMeaning(top, k, lo, hi, 0, lo);
      PushUpto(next, c, prior, top, lo, hi, cursor);
      next := Push(next, c);
      cursor := c.End();
      k := k + 1;
    }
  }

  /** The part of the old snapshot from `hi` on: the clipped tail, then segments
      appended with coalescing until one stays separate, then a bulk copy. */
  method CopySuffix(prefix: seq<Mapping>, prior: seq<Mapping>, ghost top: seq<Mapping>, ghost lo: nat, hi: nat)
    returns (next: seq<Mapping>)
    requires Index(prior) && Within(prior, 0, MAX_OFFSET) && lo <= hi <= MAX_OFFSET
    requires Upto(prefix, prior, top, lo, hi, hi)
    ensures Upto(next, prior, top, lo, hi, MAX_OFFSET)
  {
    next := prefix;
    var j := UpperBound(prior, hi);
    ghost var y := hi;
    if j < |prior| && prior[j].offset < hi {
      var tail := Suffix(LsmtMode, prior[j], hi);
      forall s: int | tail.Covers(s)
        ensures Resolve(prior, s) == tail.At(s)
      {
        ResolveAt(prior, j, s);
      }
      PushUpto(next, tail, prior, top, lo, hi, hi);
      next := Push(next, tail);
      y := tail.End();
      j := j + 1;
    }
    var merging := true;
    while merging && j < |prior|
      invariant hi <= y <= MAX_OFFSET && 0 <= j <= |prior|
      invariant forall i :: 0 <= i < j ==> prior[i].End() <= y
      invariant j < |prior| ==> y <= prior[j].offset
      invariant Upto(next, prior, top, lo, hi, y)
      decreases |prior| - j
    {
      forall s: int
        ensures y <= s < prior[j].offset ==> Resolve(prior, s) == Hole
        ensures prior[j].Covers(s) ==> Resolve(prior, s) == prior[j].At(s)
      {
        if y <= s < prior[j].offset { GapIsHole(prior, j, s); }
        if prior[j].Covers(s) { ResolveAt(prior, j, s); }
      }
      PushUpto(next, prior[j], prior, top, lo, hi, y);
      merging := |next| > 0 && Continues(next[|next| - 1], prior[j]);
      next := Push(next, prior[j]);
      y := prior[j].End();
      j := j + 1;
    }
    SuffixUpto(next, j, prior, top, lo, hi, y);
    next := next + prior[j..];
  }

  /** The splice itself: None hands over to the full merge. */
  method SpliceRange(prior: seq<Mapping>, top: seq<Mapping>, lo: nat, hi: nat) returns (r: Option<seq<Mapping>>)
    requires Index(prior) && Within(prior, 0, MAX_OFFSET) && Index(top) && lo < hi <= MAX_OFFSET
    ensures r.Some? ==> Upto(r.value, prior, top, lo, hi, MAX_OFFSET) && |r.value| <= MAX_INDEX
    ensures r.Some? ==> forall s: int :: lo <= s < hi ==> Resolve(top, s) != Hole
  {
    var next := CopyPrefix(prior, top, lo, hi);
    var cursor;
    next, cursor := AppendTop(next, prior, top, lo, hi);
    if cursor != hi { return None; }
    next := CopySuffix(next, prior, top, lo, hi);
    r := if |next| > MAX_INDEX then None else Some(next);
  }

  // ----- the spliced index is the re-merged index ---------------------------

  /** The index says what a full merge of this top with the lowers says. */
  ghost predicate Current(index: seq<Mapping>, top: seq<Mapping>, lowers: seq<seq<Mapping>>) {
    && Index(index) && Within(index, 0, MAX_OFFSET) && |index| <= MAX_INDEX
    && Fills(index, [], [top] + lowers, 0, 0, MAX_OFFSET)
  }

  /** Outside [lo, hi) both tops resolve every sector alike. */
  ghost predicate LocalChange(before: seq<Mapping>, after: seq<Mapping>, lo: nat, hi: nat) {
    forall s: int :: !(lo <= s < hi) ==> Resolve(after, s) == Resolve(before, s)
  }

  lemma {:induction false} LowersUnchanged(a: seq<Mapping>, b: seq<Mapping>, lowers: seq<seq<Mapping>>, level: nat,
                                           s: int)
    requires level >= 1
    ensures Merged([a] + lowers, level, s) == Merged([b] + lowers, level, s)
    decreases |lowers| - level
  {
    if level <= |lowers| { LowersUnchanged(a, b, lowers, level + 1, s); }
  }

  /** Splicing a contained change into a current snapshot gives a current one. */
  lemma {:induction false} SpliceIsMerge(prior: seq<Mapping>, next: seq<Mapping>, before: seq<Mapping>,
                                         after: seq<Mapping>,
                      lowers: seq<seq<Mapping>>, lo: nat, hi: nat)
    requires Current(prior, before, lowers) && Within(after, 0, MAX_OFFSET)
    requires LocalChange(before, after, lo, hi) && lo <= hi <= MAX_OFFSET
    requires forall s: int :: lo <= s < hi ==> Resolve(after, s) != Hole
    requires Upto(next, prior, after, lo, hi, MAX_OFFSET) && |next| <= MAX_INDEX
    ensures Current(next, after, lowers)
  {
    var stack := [after] + lowers;
    forall s: int
      ensures Resolve(next, s) == if 0 <= s < MAX_OFFSET then Merged(stack, 0, s) else Resolve([], s)
    {
      LowersUnchanged(before, after, lowers, 1, s);
      assert stack[0] == after && ([before] + lowers)[0] == before;
      assert Resolve(prior, s) == if 0 <= s < MAX_OFFSET then Merged([before] + lowers, 0, s) else Resolve([], s);
    }
  }

  /** What the writable top did in one call. `full` means the whole request
      succeeded; `sameRevision` that both exact revisions were known and equal. */
  datatype Outcome = Outcome(after: seq<Mapping>, full: bool, failed: bool, sameRevision: bool)

  class View {
    var top: seq<Mapping>
    const lowers: seq<seq<Mapping>>
    /** The top opts into the locality contract. */
    const local: bool
    var index: Option<seq<Mapping>>

    ghost predicate Valid()
      reads this
    {
      && Index(top) && Within(top, 0, MAX_OFFSET) && Stack([top] + lowers)
      && (index.Some? ==> Current(index.value, top, lowers))
    }

    ghost predicate Accepts(out: Outcome, lo: nat, hi: nat)
      reads this
    {
      && Index(out.after) && Within(out.after, 0, MAX_OFFSET)
      && (out.full ==> !out.failed)
      && (local && out.full ==> LocalChange(top, out.after, lo, hi))
      && (out.sameRevision ==> out.after == top)
    }

    /** Full re-merge. An oversized or failed merge leaves no index: later
        reads fail closed rather than see a stale one. */
    method RebuildIndex() returns (ok: bool)
      requires Index(top) && Within(top, 0, MAX_OFFSET) && Stack([top] + lowers)
      modifies this`index
      ensures Valid() && ok == index.Some?
    {
      var exhausted: bool := *;
      if exhausted { index := None; return false; }
      index := MergeIndexes([top] + lowers);
      ok := index.Some?;
    }

    /** Local splice after a fully successful change of [lo, hi), with the full
        merge as fallback; `before` is the top the snapshot was current for. */
    method RebuildRange(lo: nat, hi: nat, ghost before: seq<Mapping>) returns (ok: bool)
      requires Index(top) && Within(top, 0, MAX_OFFSET) && Stack([top] + lowers) && lo <= hi <= MAX_OFFSET
      requires index.Some? ==> Current(index.value, before, lowers)
      requires local ==> LocalChange(before, top, lo, hi)
      modifies this`index
      ensures Valid() && ok == index.Some?
    {
      if !local || lo == hi || index.None? { ok := RebuildIndex(); return; }
      var exhausted: bool := *;
      if exhausted { index := None; return false; }
      var spliced := SpliceRange(index.value, top, lo, hi);
      if spliced.None? { ok := RebuildIndex(); return; }
      SpliceIsMerge(index.value, spliced.value, before, top, lowers, lo, hi);
      index := spliced;
      ok := true;
    }

    /** pwrite and discard seen from the merged view. Whatever the top did, the
        index afterwards is absent or says what a full merge would say. */
    method Mutate(out: Outcome, lo: nat, hi: nat) returns (ok: bool)
      requires Valid() && Accepts(out, lo, hi) && lo <= hi <= MAX_OFFSET
      modifies this`top, this`index
      ensures Valid() && top == out.after
      ensures ok ==> out.full && index.Some?
    {
      ghost var before := top;
      var hadIndex := index.Some?;
      top := out.after;
      assert forall i :: 0 <= i < |[top] + lowers| ==>
                ([top] + lowers)[i] == if i == 0 then top else ([before] + lowers)[i];
      var rebuilt := true;
      if !out.failed && hadIndex && out.sameRevision {
      } else if out.full {
        rebuilt := RebuildRange(lo, hi, before);
      } else {
        rebuilt := RebuildIndex();
      }
      ok := out.full && rebuilt;
    }

    /** flush and grow: the top may change its segments whether it succeeds or not,
        and says so by its generation. */
    method Refresh(after: seq<Mapping>, generationChanged: bool, failed: bool) returns (ok: bool)
      requires Valid() && Index(after) && Within(after, 0, MAX_OFFSET) && (!generationChanged ==> after == top)
      modifies this`top, this`index
      ensures Valid() && top == after
      ensures ok ==> !failed && (generationChanged ==> index.Some?)
    {
      ghost var before := top;
      top := after;
      assert forall i :: 0 <= i < |[top] + lowers| ==>
                ([top] + lowers)[i] == if i == 0 then top else ([before] + lowers)[i];
      var rebuilt := true;
      if generationChanged { rebuilt := RebuildIndex(); }
      ok := !failed && rebuilt;
    }
  }
}
