/** The recursive gap merge of a stack of layer indexes, topmost first. */
module LayerMerge {
  import opened Segments

  function PrevEnd(l: seq<Mapping>, i: nat): nat
    requires i <= |l|
  {
    if i == 0 then 0 else l[i - 1].End()
  }

  /** An ordered layer index whose empty segments, if any, leave no gap before
      them. Opening a plain layer checks the order and accepts empty segments. */
  ghost predicate Tidy(l: seq<Mapping>) {
    && Sorted(l)
    && forall i :: 0 <= i < |l| ==> l[i].length <= MAX_LENGTH && (l[i].length == 0 ==> l[i].offset == PrevEnd(l, i))
  }

  /** A stack the merge is right for: at most 256 layers, so that a layer number
      fits the 8-bit tag. */
  ghost predicate Stack(layers: seq<seq<Mapping>>) {
    |layers| <= 256 && forall i :: 0 <= i < |layers| ==> Tidy(layers[i])
  }

  /** What a sector means in the stack from `level` down: the first layer that
      covers it decides, and its number becomes the tag. */
  function Merged(layers: seq<seq<Mapping>>, level: nat, s: int): Sector
    decreases |layers| - level
  {
    if level >= |layers| then Hole
    else if Resolve(layers[level], s) != Hole then Retag(Resolve(layers[level], s), level)
    else Merged(layers, level + 1, s)
  }

  /** `r` is `out` with [lo, hi) filled from the stack below `level`. */
  ghost predicate Fills(r: seq<Mapping>, out: seq<Mapping>, layers: seq<seq<Mapping>>, level: nat, lo: int, hi: int) {
    forall s: int :: Resolve(r, s) == if lo <= s < hi then Merged(layers, level, s) else Resolve(out, s)
  }

  /** A segment clipped to [lo, hi) and marked with its layer. */
  function Clip(m: Mapping, lo: nat, hi: nat, level: nat): Mapping
    requires m.offset < hi && lo < hi
  {
    var head := if m.offset < lo <= m.End() then Suffix(LsmtMode, m, lo) else m;
    var tail := if head.End() > hi then head.Head(hi - head.offset) else head;
    tail.(tag := level)
  }

  lemma {:induction false} ClipMeaning(segs: seq<Mapping>, k: nat, lo: nat, hi: nat, level: nat, s: int)
    requires Sorted(segs) && k < |segs| && segs[k].offset < hi && lo < segs[k].End() && lo < hi
    requires 0 < segs[k].length <= MAX_LENGTH
    ensures var c := Clip(segs[k], lo, hi, level);
      && lo <= c.offset && c.End() <= hi && 0 < c.length <= MAX_LENGTH
      && c.offset == (if segs[k].offset < lo then lo else segs[k].offset)
      && c.End() == (if segs[k].End() > hi then hi else segs[k].End())
      && (c.Covers(s) ==> c.At(s) == Retag(Resolve(segs, s), level) && Resolve(segs, s) != Hole)
  {
    var c := Clip(segs[k], lo, hi, level);
    if c.Covers(s) { ResolveAt(segs, k, s); }
  }

  // ----- the merge as the code does it ----------------------------------------------

  /** merge_range. */
  function MergeOf(layers: seq<seq<Mapping>>, level: nat, lo: nat, hi: nat, out: seq<Mapping>): seq<Mapping>
    decreases |layers| - level, 1, 0
  {
    if level >= |layers| || lo >= hi then out
    else MergeFrom(layers, level, UpperBound(layers[level], lo), lo, hi, out)
  }

  /** Its loop from segment k on, with everything before `lo` done. An empty
      segment fills the gap before it and then leaves `lo` where it was. */
  function MergeFrom(layers: seq<seq<Mapping>>, level: nat, k: nat, lo: nat, hi: nat, out: seq<Mapping>): seq<Mapping>
    requires level < |layers| && k <= |layers[level]| && lo < hi
    decreases |layers| - level, 0, |layers[level]| - k
  {
    var segs := layers[level];
    if k == |segs| || segs[k].offset >= hi then MergeOf(layers, level + 1, lo, hi, out)
    else
      var r := if segs[k].offset > lo then MergeOf(layers, level + 1, lo, segs[k].offset, out) else out;
      var c := Clip(segs[k], lo, hi, level);
      if c.length == 0 then MergeFrom(layers, level, k + 1, lo, hi, r)
      else if c.End() >= hi then Push(r, c)
      else MergeFrom(layers, level, k + 1, c.End(), hi, Push(r, c))
  }

  method MergeRange(layers: seq<seq<Mapping>>, level: nat, lo: nat, hi: nat, out: seq<Mapping>)
    returns (r: seq<Mapping>)
    ensures r == MergeOf(layers, level, lo, hi, out)
    decreases |layers| - level
  {
    r := out;
    if level >= |layers| || lo >= hi { return; }
    var segs := layers[level];
    var k := UpperBound(segs, lo);
    var cur: nat := lo;
    while k < |segs| && segs[k].offset < hi
      invariant k <= |segs| && cur < hi
      invariant MergeFrom(layers, level, k, cur, hi, r) == MergeOf(layers, level, lo, hi, out)
      decreases |segs| - k
    {
      if segs[k].offset > cur { r := MergeRange(layers, level + 1, cur, segs[k].offset, r); }
      var c := Clip(segs[k], cur, hi, level);
      k := k + 1;
      if c.length != 0 {
        r := Push(r, c);
        if c.End() >= hi { return; }
        cur := c.End();
      }
    }
    r := MergeRange(layers, level + 1, cur, hi, r);
  }

  // ----- right on tidy stacks ---------------------------------------------------------

  lemma {:induction false} MergeFills(layers: seq<seq<Mapping>>, level: nat, lo: nat, hi: nat, out: seq<Mapping>)
    requires Stack(layers) && Index(out) && Within(out, 0, lo)
    ensures var r := MergeOf(layers, level, lo, hi, out);
      Index(r) && Within(r, 0, if lo < hi then hi else lo) && Fills(r, out, layers, level, lo, hi)
    decreases |layers| - level, 1, 0
  {
    if level >= |layers| || lo >= hi {
      forall s: int | lo <= s < hi
        ensures Resolve(out, s) == Hole
      {
        ResolveOutside(out, 0, lo, s);
      }
    } else {
      MergeFromFills(layers, level, UpperBound(layers[level], lo), lo, hi, out);
    }
  }

  lemma {:induction false} MergeFromFills(layers: seq<seq<Mapping>>, level: nat, k: nat, lo: nat, hi: nat,
                                          out: seq<Mapping>)
    requires Stack(layers) && level < |layers| && k <= |layers[level]| && lo < hi && Index(out) && Within(out, 0, lo)
    requires forall i :: 0 <= i < k ==> layers[level][i].End() <= lo
    requires k < |layers[level]| ==>
              lo < layers[level][k].End() || (layers[level][k].length == 0 && layers[level][k].offset == lo)
    ensures var r := MergeFrom(layers, level, k, lo, hi, out);
      Index(r) && Within(r, 0, hi) && Fills(r, out, layers, level, lo, hi)
    decreases |layers| - level, 0, |layers[level]| - k
  {
    var segs := layers[level];
    if k == |segs| || segs[k].offset >= hi {
      MergeFills(layers, level + 1, lo, hi, out);
      LastFills(MergeOf(layers, level + 1, lo, hi, out), out, layers, level, lo, hi, k);
    } else if segs[k].length == 0 {
      EmptyIsLow(segs, k, lo);
      MergeFromFills(layers, level, k + 1, lo, hi, out);
    } else {
      var r := if segs[k].offset > lo then MergeOf(layers, level + 1, lo, segs[k].offset, out) else out;
      var c := Clip(segs[k], lo, hi, level);
      ClipMeaning(segs, k, lo, hi, level, lo);
      if segs[k].offset > lo { MergeFills(layers, level + 1, lo, segs[k].offset, out); }
      PushIndex(r, c, 0);
      StepFills(Push(r, c), r, out, layers, level, lo, hi, k);
      if c.End() < hi { MergeFromFills(layers, level, k + 1, c.End(), hi, Push(r, c)); }
    }
  }

  /** An empty segment of a tidy layer changes nothing. */
  lemma {:induction false} EmptyIsLow(segs: seq<Mapping>, k: nat, lo: nat)
    requires Tidy(segs) && k < |segs| && segs[k].length == 0 && segs[k].offset == lo
    ensures k + 1 < |segs| ==> lo < segs[k + 1].End() || (segs[k + 1].length == 0 && segs[k + 1].offset == lo)
  {
    if k + 1 < |segs| { assert segs[k].End() <= segs[k + 1].offset; }
  }

  lemma {:induction false} StepFills(r: seq<Mapping>, r1: seq<Mapping>, out: seq<Mapping>,
                  layers: seq<seq<Mapping>>, level: nat, lo: nat, hi: nat, k: nat)
    requires Stack(layers) && level < |layers| && lo < hi
    requires k < |layers[level]| && layers[level][k].offset < hi && lo < layers[level][k].End()
    requires layers[level][k].length > 0
    requires forall i :: 0 <= i < k ==> layers[level][i].End() <= lo
    requires Fills(r1, out, layers, level + 1, lo, layers[level][k].offset)
    requires Index(r1) && Within(r1, 0, Clip(layers[level][k], lo, hi, level).offset)
    requires r == Push(r1, Clip(layers[level][k], lo, hi, level))
    ensures Fills(r, out, layers, level, lo, Clip(layers[level][k], lo, hi, level).End())
  {
    var c := Clip(layers[level][k], lo, hi, level);
    forall s: int
      ensures Resolve(r, s) == if lo <= s < c.End() then Merged(layers, level, s) else Resolve(out, s)
    {
      ClipMeaning(layers[level], k, lo, hi, level, s);
      ResolvePush(r1, c, s);
      if lo <= s < c.offset { GapIsHole(layers[level], k, s); }
    }
  }

  lemma {:induction false} LastFills(r: seq<Mapping>, out: seq<Mapping>, layers: seq<seq<Mapping>>, level: nat,
                                     lo: nat, hi: nat, k: nat)
    requires Stack(layers) && level < |layers| && lo < hi && k <= |layers[level]|
    requires forall i :: 0 <= i < k ==> layers[level][i].End() <= lo
    requires k < |layers[level]| ==> layers[level][k].offset >= hi
    requires Fills(r, out, layers, level + 1, lo, hi)
    ensures Fills(r, out, layers, level, lo, hi)
  {
    forall s: int
      ensures Resolve(r, s) == if lo <= s < hi then Merged(layers, level, s) else Resolve(out, s)
    {
      if lo <= s < hi { GapIsHole(layers[level], k, s); }
    }
  }

  /** merge_indexes: the whole sector space, refused above the index limit. On a
      tidy stack the result is an index and says what the stack says. */
  method MergeIndexes(layers: seq<seq<Mapping>>) returns (r: Option<seq<Mapping>>)
    ensures var all := MergeOf(layers, 0, 0, MAX_OFFSET, []); r == if |all| > MAX_INDEX then None else Some(all)
    ensures Stack(layers) && r.Some? ==> Index(r.value) && Within(r.value, 0, MAX_OFFSET)
    ensures Stack(layers) && r.Some? ==> Fills(r.value, [], layers, 0, 0, MAX_OFFSET)
  {
    var out := MergeRange(layers, 0, 0, MAX_OFFSET, []);
    if Stack(layers) { MergeFills(layers, 0, 0, MAX_OFFSET, []); }
    r := if |out| > MAX_INDEX then None else Some(out);
  }

  // ----- and on no others ---------------------------------------------------------------

  /** How many mappings cover a sector. */
  function Count(l: seq<Mapping>, x: int): nat {
    if |l| == 0 then 0 else Count(l[..|l| - 1], x) + if l[|l| - 1].Covers(x) then 1 else 0
  }

  lemma {:induction false} CountSorted(l: seq<Mapping>, x: int)
    requires Sorted(l)
    ensures Count(l, x) <= 1
    ensures |l| > 0 && l[|l| - 1].Covers(x) ==> Count(l[..|l| - 1], x) == 0
  {
    if |l| > 0 {
      var rest := l[..|l| - 1];
      CountSorted(rest, x);
      if l[|l| - 1].Covers(x) { CountNone(rest, x); }
    }
  }

  lemma {:induction false} CountNone(l: seq<Mapping>, x: int)
    requires forall i :: 0 <= i < |l| ==> !l[i].Covers(x)
    ensures Count(l, x) == 0
  {
    if |l| > 0 { CountNone(l[..|l| - 1], x); }
  }

  lemma {:induction false} CountPush(l: seq<Mapping>, m: Mapping, x: int)
    ensures Count(Push(l, m), x) == Count(l, x) + if m.Covers(x) then 1 else 0
  {
    if |l| > 0 && Continues(l[|l| - 1], m) {
      assert Push(l, m)[..|l| - 1] == l[..|l| - 1];
    } else {
      assert Push(l, m)[..|l|] == l;
    }
  }

  /** A lower layer of one sector. */
  function Speck(x: nat): seq<Mapping> { [Mapping(x, 1, DATA_START, false, 0)] }

  lemma {:induction false} LowerCount(top: seq<Mapping>, x: nat, lo: nat, hi: nat, out: seq<Mapping>)
    ensures Count(MergeOf([top, Speck(x)], 1, lo, hi, out), x) == Count(out, x) + if lo <= x < hi then 1 else 0
  {
    var layers := [top, Speck(x)];
    if lo < hi {
      assert layers[1][..0] == [] && UpperBound(layers[1][..0], lo) == 0;
      if lo <= x < hi {
        var c := Clip(layers[1][0], lo, hi, 1);
        CountPush(out, c, x);
        assert MergeOf(layers, 2, lo, x, out) == out;
        if x + 1 < hi { assert MergeFrom(layers, 1, 1, x + 1, hi, Push(out, c)) == Push(out, c); }
      } else if x < lo {
        assert UpperBound(layers[1], lo) == 1;
        assert MergeFrom(layers, 1, 1, lo, hi, out) == MergeOf(layers, 2, lo, hi, out);
      } else {
        assert UpperBound(layers[1], lo) == 0;
        assert MergeFrom(layers, 1, 0, lo, hi, out) == MergeOf(layers, 2, lo, hi, out);
      }
    }
  }

  /** From segment k on, the mapping count of an uncovered sector only grows, and
      by one at least if the sector is still ahead. */
  lemma {:induction false} CountGrows(top: seq<Mapping>, x: nat, k: nat, lo: nat, hi: nat, out: seq<Mapping>)
    requires Sorted(top) && k <= |top| && lo < hi
    ensures Count(MergeFrom([top, Speck(x)], 0, k, lo, hi, out), x) >= Count(out, x)
    ensures lo <= x < hi && (k < |top| ==> x < top[k].offset) ==>
              Count(MergeFrom([top, Speck(x)], 0, k, lo, hi, out), x) >= Count(out, x) + 1
    decreases |top| - k
  {
    var layers := [top, Speck(x)];
    if k == |top| || top[k].offset >= hi {
      LowerCount(top, x, lo, hi, out);
    } else {
      var r := if top[k].offset > lo then MergeOf(layers, 1, lo, top[k].offset, out) else out;
      if top[k].offset > lo { LowerCount(top, x, lo, top[k].offset, out); }
      var c := Clip(top[k], lo, hi, 0);
      if c.length == 0 {
        CountGrows(top, x, k + 1, lo, hi, r);
      } else {
        CountPush(r, c, x);
        if c.End() < hi { CountGrows(top, x, k + 1, c.End(), hi, Push(r, c)); }
      }
    }
  }

  /** An empty segment above a gap makes the merge fill the gap twice. */
  lemma {:induction false} CountTwice(top: seq<Mapping>, z: nat, x: nat, k: nat, lo: nat, hi: nat, out: seq<Mapping>)
    requires Sorted(top) && k <= z < |top| && top[z].length == 0 && top[z].offset == x + 1 < hi && PrevEnd(top, z) <= x
    requires lo <= x
    requires k < z ==> lo <= top[k].End()
    ensures Count(MergeFrom([top, Speck(x)], 0, k, lo, hi, out), x) >= Count(out, x) + 2
    decreases z - k
  {
    var layers := [top, Speck(x)];
    if k == z {
      LowerCount(top, x, lo, top[z].offset, out);
      CountGrows(top, x, k + 1, lo, hi, MergeOf(layers, 1, lo, top[z].offset, out));
    } else {
      assert top[k].End() <= x by { if k < z - 1 { assert top[k].End() <= top[z - 1].offset <= top[z - 1].End(); } }
      assert top[k].End() <= top[k + 1].offset;
      var r, cur := CountStep(top, x, k, lo, hi, out);
      CountTwice(top, z, x, k + 1, cur, hi, r);
    }
  }

  /** One round of the loop over a segment that ends before the sector. */
  lemma {:induction false} CountStep(top: seq<Mapping>, x: nat, k: nat, lo: nat, hi: nat, out: seq<Mapping>)
    returns (r: seq<Mapping>, cur: nat)
    requires k < |top| && lo <= top[k].End() <= x < hi
    ensures lo <= cur <= top[k].End() && Count(r, x) >= Count(out, x)
    ensures MergeFrom([top, Speck(x)], 0, k, lo, hi, out) == MergeFrom([top, Speck(x)], 0, k + 1, cur, hi, r)
  {
    var layers := [top, Speck(x)];
    r := if top[k].offset > lo then MergeOf(layers, 1, lo, top[k].offset, out) else out;
    if top[k].offset > lo { LowerCount(top, x, lo, top[k].offset, out); }
    var c := Clip(top[k], lo, hi, 0);
    cur := lo;
    if c.length > 0 {
      CountPush(r, c, x);
      r, cur := Push(r, c), c.End();
    }
  }

  /** Merging a top layer over whatever tidy layer lies below gives an ordered
      index exactly when the top is tidy itself. */
  lemma {:induction false} TidyExactly(top: seq<Mapping>)
    requires Sorted(top) && Within(top, 0, MAX_OFFSET)
    requires forall i :: 0 <= i < |top| ==> top[i].length <= MAX_LENGTH && top[i].offset < MAX_OFFSET
    ensures Tidy(top) <==> forall lower :: Tidy(lower) ==> Sorted(MergeOf([top, lower], 0, 0, MAX_OFFSET, []))
  {
    if Tidy(top) {
      forall lower | Tidy(lower)
        ensures Sorted(MergeOf([top, lower], 0, 0, MAX_OFFSET, []))
      {
        MergeFills([top, lower], 0, 0, MAX_OFFSET, []);
      }
    } else {
      var z :| 0 <= z < |top| && top[z].length == 0 && top[z].offset != PrevEnd(top, z);
      UntidyBreaks(top, z);
    }
  }

  lemma {:induction false} UntidyBreaks(top: seq<Mapping>, z: nat)
    requires Sorted(top) && z < |top| && top[z].length == 0 && top[z].offset != PrevEnd(top, z)
    requires top[z].offset < MAX_OFFSET
    ensures top[z].offset > 0 && Tidy(Speck(top[z].offset - 1))
    ensures !Sorted(MergeOf([top, Speck(top[z].offset - 1)], 0, 0, MAX_OFFSET, []))
  {
    if z > 0 { assert top[z - 1].End() <= top[z].offset; }
    var x := top[z].offset - 1;
    var all := MergeOf([top, Speck(x)], 0, 0, MAX_OFFSET, []);
    CountTwice(top, z, x, UpperBound(top, 0), 0, MAX_OFFSET, []);
    if Sorted(all) { CountSorted(all, x); }
  }
}
