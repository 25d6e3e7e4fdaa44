/** The tar reader's streaming accounts: what it notes for directories while names
    arrive one by one, and why the exact count at the end finds nothing new. */
module Ext2Reader {
  import opened Segments
  import opened Ext2Budget

  const MAX_SUBDIRS: nat := 65533

  // ----- tallies --------------------------------------------------------------------

  function SubDirs(c: Children): nat {
    match c case Nil => 0 case Cons(_, n, rest) => (if n.Dir? then 1 else 0) + SubDirs(rest)
  }

  /** The largest record a name can need. */
  const MAX_NEED: nat := 264

  function Largest(needs: seq<nat>): nat {
    if |needs| == 0 then 0
    else
      var most, x := Largest(needs[..|needs| - 1]), needs[|needs| - 1];
      if most < x then x else most
  }

  /** Records so many that their estimate exceeds one block. */
  predicate IsLarge(needs: seq<nat>) { Sum(needs) + Largest(needs) > BLOCK + 1 }

  /** The tally describes the directory's records, and what it notes is the exact
      count or, for a large directory only, one block more. */
  ghost predicate Tallies(needs: seq<nat>, subdirs: nat, t: Tally) {
    && t.bytes == Sum(needs) && t.most == Largest(needs) && Records(needs, MAX_NEED)
    && Greedy(needs, |needs|).blocks <= t.blocks <= MAX_DIR_BLOCKS
    && t.blocks <= Greedy(needs, |needs|).blocks + (if IsLarge(needs) then 1 else 0)
    && t.subdirs == subdirs <= MAX_SUBDIRS
  }

  ghost predicate TallyOk(c: Children, t: Tally) { Tallies(DirNeeds(c), SubDirs(c), t) }

  ghost predicate Accounted(n: Node) {
    match n case Dir(c, t) => TallyOk(c, t) && AllAccounted(c) case _ => true
  }

  ghost predicate AllAccounted(c: Children) {
    match c case Nil => true case Cons(_, n, rest) => Accounted(n) && AllAccounted(rest)
  }

  /** The blocks noted for all directories of a tree. */
  function Noted(n: Node): nat {
    match n case Dir(c, t) => DirPayload(t.blocks) + NotedAll(c) case _ => 0
  }

  function NotedAll(c: Children): nat {
    match c case Nil => 0 case Cons(_, n, rest) => Noted(n) + NotedAll(rest)
  }

  lemma {:induction false} SmallPayload(b: nat)
    requires b <= MAX_DIR_BLOCKS
    ensures DirPayload(b) == b
  {
    assert (b * BLOCK + BLOCK - 1) / BLOCK == b;
  }

  /** Directories that may be noted above their exact count. */
  function LargeDirs(n: Node): nat {
    match n case Dir(c, _) => (if IsLarge(DirNeeds(c)) then 1 else 0) + LargeDirsAll(c) case _ => 0
  }

  function LargeDirsAll(c: Children): nat {
    match c case Nil => 0 case Cons(_, n, rest) => LargeDirs(n) + LargeDirsAll(rest)
  }

  predicate FewSubdirs(n: Node) {
    match n case Dir(c, _) => SubDirs(c) <= MAX_SUBDIRS && AllFew(c) case _ => true
  }

  predicate AllFew(c: Children) {
    match c case Nil => true case Cons(_, n, rest) => FewSubdirs(n) && AllFew(rest)
  }

  /** What is noted covers what the exact count needs, is above it by at most the
      number of large directories, and no directory is too large. */
  lemma {:induction false} NotedCovers(n: Node)
    requires Accounted(n)
    ensures ReservedDirs(n) <= Noted(n) <= ReservedDirs(n) + LargeDirs(n) && DirsSmall(n) && FewSubdirs(n)
  {
    match n
    case Dir(c, t) =>
      NotedCoversAll(c);
      SmallPayload(DirBlocks(c));
      SmallPayload(t.blocks);
    case _ =>
  }

  lemma {:induction false} NotedCoversAll(c: Children)
    requires AllAccounted(c)
    ensures ReservedDirsAll(c) <= NotedAll(c) <= ReservedDirsAll(c) + LargeDirsAll(c) && AllSmall(c) && AllFew(c)
  {
    match c
    case Nil =>
    case Cons(_, n, rest) =>
      NotedCovers(n);
      NotedCoversAll(rest);
  }

  // ----- trees without tallies --------------------------------------------------------

  function Plain(n: Node): Node {
    match n case Dir(c, _) => Dir(PlainAll(c), FRESH) case _ => n
  }

  function PlainAll(c: Children): Children {
    match c case Nil => Nil case Cons(name, n, rest) => Cons(name, Plain(n), PlainAll(rest))
  }

  /** Nothing but the accounts looks at tallies. */
  lemma {:induction false} PlainSame(n: Node)
    ensures CountNodes(Plain(n)) == CountNodes(n) && ReservedFiles(Plain(n)) == ReservedFiles(n)
    ensures ReservedDirs(Plain(n)) == ReservedDirs(n) && ShapeOk(Plain(n)) == ShapeOk(n)
    ensures LargeDirs(Plain(n)) == LargeDirs(n) && DirsSmall(Plain(n)) == DirsSmall(n)
    ensures FewSubdirs(Plain(n)) == FewSubdirs(n)
  {
    match n case Dir(c, _) => PlainSameAll(c); case _ =>
  }

  lemma {:induction false} PlainSameAll(c: Children)
    ensures CountAll(PlainAll(c)) == CountAll(c) && ReservedFilesAll(PlainAll(c)) == ReservedFilesAll(c)
    ensures ReservedDirsAll(PlainAll(c)) == ReservedDirsAll(c) && ShapesOk(PlainAll(c)) == ShapesOk(c)
    ensures LargeDirsAll(PlainAll(c)) == LargeDirsAll(c) && AllSmall(PlainAll(c)) == AllSmall(c)
    ensures AllFew(PlainAll(c)) == AllFew(c)
    ensures EntryNeeds(PlainAll(c)) == EntryNeeds(c) && SubDirs(PlainAll(c)) == SubDirs(c)
  {
    match c
    case Nil =>
    case Cons(_, n, rest) =>
      PlainSame(n);
      PlainSameAll(rest);
  }

  lemma {:induction false} FindPlain(c: Children, name: Name)
    ensures Find(PlainAll(c), name) == (if Find(c, name).Some? then Some(Plain(Find(c, name).value)) else None)
  {
    match c
    case Nil =>
    case Cons(_, _, rest) => FindPlain(rest, name);
  }

  lemma {:induction false} PutPlain(c: Children, name: Name, n: Node)
    ensures PlainAll(Put(c, name, n)) == Put(PlainAll(c), name, Plain(n))
  {
    match c
    case Nil =>
    case Cons(x, _, rest) =>
      FindPlain(c, name);
      if x != name { PutPlain(rest, name, n); }
  }

  // ----- a new child ----------------------------------------------------------------

  /** The record needs with a name put in at its place. */
  function PendingNeeds(c: Children, name: Name): seq<nat> {
    match c
    case Nil => [Need(|name|)]
    case Cons(x, _, rest) =>
      if Before(name, x) then [Need(|name|)] + EntryNeeds(c) else [Need(|x|)] + PendingNeeds(rest, name)
  }

  /** The records of the directory once the name is in it. */
  function Pending(c: Children, name: Name): seq<nat> { [Need(1), Need(2)] + PendingNeeds(c, name) }

  /** directory_blocks_with_pending_child. */
  function PendingBlocks(c: Children, name: Name): nat { Greedy(Pending(c, name), |Pending(c, name)|).blocks }

  lemma {:induction false} PendingIsPut(c: Children, name: Name, n: Node)
    requires Find(c, name).None?
    ensures Pending(c, name) == DirNeeds(Put(c, name, n)) && PendingBlocks(c, name) == DirBlocks(Put(c, name, n))
    ensures SubDirs(Put(c, name, n)) == SubDirs(c) + if n.Dir? then 1 else 0
    ensures NotedAll(Put(c, name, n)) == NotedAll(c) + Noted(n)
    ensures AllAccounted(c) && Accounted(n) ==> AllAccounted(Put(c, name, n))
  {
    PendingNeedsPut(c, name, n);
    match c
    case Nil =>
    case Cons(_, _, rest) => PendingIsPut(rest, name, n);
  }

  lemma {:induction false} PendingNeedsPut(c: Children, name: Name, n: Node)
    requires Find(c, name).None?
    ensures PendingNeeds(c, name) == EntryNeeds(Put(c, name, n))
  {
    match c
    case Nil =>
    case Cons(_, _, rest) => PendingNeedsPut(rest, name, n);
  }

  /** A pending name adds one record somewhere. */
  lemma {:induction false} PendingAdds(c: Children, name: Name) returns (k: nat)
    ensures k <= |EntryNeeds(c)|
    ensures PendingNeeds(c, name) == EntryNeeds(c)[..k] + [Need(|name|)] + EntryNeeds(c)[k..]
  {
    k := 0;
    match c {
      case Nil =>
      case Cons(x, _, rest) =>
        if !Before(name, x) {
          var j := PendingAdds(rest, name);
          k := j + 1;
          assert EntryNeeds(c)[..k] == [Need(|x|)] + EntryNeeds(rest)[..j];
          assert EntryNeeds(c)[k..] == EntryNeeds(rest)[j..];
        }
    }
  }

  /** A record inserted somewhere. */
  function WithRecord(needs: seq<nat>, k: nat, x: nat): seq<nat>
    requires k <= |needs|
  {
    needs[..k] + [x] + needs[k..]
  }

  lemma {:induction false} PendingInserts(c: Children, name: Name) returns (k: nat)
    ensures k <= |DirNeeds(c)| && Pending(c, name) == WithRecord(DirNeeds(c), k, Need(|name|))
  {
    var j := PendingAdds(c, name);
    k := j + 2;
    var all, e := DirNeeds(c), EntryNeeds(c);
    assert all[..k] == [Need(1), Need(2)] + e[..j] && all[k..] == e[j..];
  }

  lemma {:induction false} LargestOfInsert(needs: seq<nat>, k: nat, x: nat)
    requires k <= |needs|
    ensures Largest(WithRecord(needs, k, x)) == if Largest(needs) < x then x else Largest(needs)
  {
    var l := WithRecord(needs, k, x);
    if k == |needs| {
      assert l[..|needs|] == needs;
    } else {
      var rest := needs[..|needs| - 1];
      LargestOfInsert(rest, k, x);
      assert l[..|l| - 1] == WithRecord(rest, k, x);
    }
  }

  lemma {:induction false} LargestBounds(needs: seq<nat>, most: nat)
    requires Records(needs, most) && |needs| > 0
    ensures 0 < Largest(needs) <= most && Records(needs, Largest(needs))
  {
    var rest := needs[..|needs| - 1];
    if |rest| > 0 {
      LargestBounds(rest, most);
      forall i | 0 <= i < |needs|
        ensures 0 < needs[i] <= Largest(needs)
      {
        if i < |rest| { assert rest[i] == needs[i]; }
      }
    }
  }

  lemma {:induction false} RecordsOfInsert(needs: seq<nat>, k: nat, x: nat, most: nat)
    requires Records(needs, most) && k <= |needs| && 0 < x <= most
    ensures Records(WithRecord(needs, k, x), most)
  {
  }

  /** The running total and the largest record stay right wherever the name goes. */
  lemma {:induction false} PendingTotals(c: Children, name: Name)
    requires Records(DirNeeds(c), MAX_NEED) && |name| <= 255
    ensures var needs, x := Pending(c, name), Need(|name|);
      && Sum(needs) == Sum(DirNeeds(c)) + x && Records(needs, MAX_NEED)
      && Largest(needs) == if Largest(DirNeeds(c)) < x then x else Largest(DirNeeds(c))
  {
    hide Records;
    var k := PendingInserts(c, name);
    SumOfInsert(DirNeeds(c), k, Need(|name|));
    LargestOfInsert(DirNeeds(c), k, Need(|name|));
    RecordsOfInsert(DirNeeds(c), k, Need(|name|), MAX_NEED);
  }

  // ----- the estimate is close ----------------------------------------------------------

  lemma {:induction false} GreedyHolds(needs: seq<nat>, n: nat)
    requires n <= |needs| && Records(needs, BLOCK)
    ensures var f := Greedy(needs, n);
      f.blocks >= 1 && f.used <= BLOCK && Sum(needs[..n]) <= (f.blocks - 1) * BLOCK + f.used
  {
    if n > 0 {
      GreedyHolds(needs, n - 1);
      assert needs[..n][..n - 1] == needs[..n - 1];
    }
  }

  /** At most one block above, and none unless the records are large. */
  lemma {:induction false} EstimateClose(needs: seq<nat>)
    requires |needs| > 0 && Records(needs, MAX_NEED)
    ensures var exact, guess := Greedy(needs, |needs|).blocks, Estimate(Sum(needs), Largest(needs));
      exact <= guess && (exact <= MAX_DIR_BLOCKS ==> guess <= exact + if IsLarge(needs) then 1 else 0)
  {
    LargestBounds(needs, MAX_NEED);
    EstimateCovers(needs, Largest(needs));
    GreedyHolds(needs, |needs|);
    assert needs[..|needs|] == needs;
    var total, g, exact := Sum(needs), BLOCK - (Largest(needs) - 1), Greedy(needs, |needs|).blocks;
    if exact <= MAX_DIR_BLOCKS {
      assert total <= exact * BLOCK <= (exact + 1) * 3833;
      CeilAtMost(exact + 1, total, g);
      if !IsLarge(needs) { CeilAtMost(1, total, g); }
    }
  }

  lemma {:induction false} CeilAtMost(b: nat, total: nat, g: nat)
    requires g >= 3833 && (total <= b * 3833 || (b == 1 && total <= g))
    ensures (total + g - 1) / g <= b
  {
    assert total <= b * g by { if total <= b * 3833 { Times(b, g); } }
    var x := total + g - 1;
    var q := x / g;
    assert x == q * g + x % g;
    if q > b { ProductGap(b, q, g); }
  }

  lemma {:induction false} Times(b: nat, g: nat)
    requires g >= 3833
    ensures b * 3833 <= b * g
  {
    assert b * g == b * 3833 + b * (g - 3833);
  }

  // ----- counters -----------------------------------------------------------------------

  datatype Counters = Counters(nodes: nat, dirs: int, payload: nat)

  function Required(c: Counters): int { Metadata(c.nodes) + c.dirs + c.payload }

  /** The blocks noted directories change by, with those of a child directory. */
  function More(before: nat, after: nat, isDir: bool): int {
    DirPayload(after) - DirPayload(before) + if isDir then 1 else 0
  }

  /** The tally is right for the directory once the name is in it. */
  ghost predicate Expects(c: Children, name: Name, isDir: bool, t: Tally) {
    Tallies(Pending(c, name), SubDirs(c) + if isDir then 1 else 0, t)
  }

  /** What a pending name leaves noted: the estimate from totals, or the exact count
      where the estimate is too large or over budget. */
  function Note(c: Children, t: Tally, name: Name, isDir: bool, counts: Counters, budget: nat): nat {
    var need := Need(|name|);
    var guess := Estimate(t.bytes + need, if t.most < need then need else t.most);
    if guess > MAX_DIR_BLOCKS || Required(counts.(dirs := counts.dirs + More(t.blocks, guess, isDir))) > budget
    then PendingBlocks(c, name)
    else guess
  }

  /** reserve_directory_child. */
  function ReserveChild(c: Children, t: Tally, name: Name, isDir: bool, counts: Counters, budget: nat)
    : Option<(Tally, Counters)>
  {
    var need, blocks := Need(|name|), Note(c, t, name, isDir, counts, budget);
    if (isDir && t.subdirs >= MAX_SUBDIRS) || blocks > MAX_DIR_BLOCKS then None
    else
      var after := Tally(t.bytes + need, if t.most < need then need else t.most, blocks,
                         t.subdirs + if isDir then 1 else 0);
      Some((after, counts.(dirs := counts.dirs + More(t.blocks, blocks, isDir))))
  }

  /** A directory is refused exactly when it has too many subdirectories or truly
      needs more blocks than allowed; otherwise its tally is right for the child. */
  lemma {:induction false} ReserveExact(c: Children, t: Tally, name: Name, isDir: bool, counts: Counters, budget: nat)
    requires TallyOk(c, t) && |name| <= 255
    ensures var r := ReserveChild(c, t, name, isDir, counts, budget);
      && (r.None? <==> (isDir && SubDirs(c) >= MAX_SUBDIRS) || PendingBlocks(c, name) > MAX_DIR_BLOCKS)
      && (r.Some? ==> Expects(c, name, isDir, r.value.0))
  {
    PendingTotals(c, name);
    EstimateClose(Pending(c, name));
  }

  /** Counts and notes one new child, and checks the budget. */
  function NewChild(n: Node, name: Name, isDir: bool, counts: Counters, budget: nat): Option<(Tally, Counters)>
    requires n.Dir?
  {
    if counts.nodes >= MAX_NODES then None
    else
      var r := ReserveChild(n.children, n.tally, name, isDir, counts.(nodes := counts.nodes + 1), budget);
      if r.Some? && Required(r.value.1) > budget then None else r
  }

  /** A new child is refused exactly for a limit, or when the volume does not fit
      with its directory counted exactly and all others as they are noted. */
  lemma {:induction false} NewChildExact(n: Node, name: Name, isDir: bool, counts: Counters, budget: nat)
    requires n.Dir? && Accounted(n) && |name| <= 255
    ensures var r, exact := NewChild(n, name, isDir, counts, budget), PendingBlocks(n.children, name);
      && (r.None? <==>
          || counts.nodes >= MAX_NODES || (isDir && SubDirs(n.children) >= MAX_SUBDIRS) || exact > MAX_DIR_BLOCKS
          || Required(Counters(counts.nodes + 1, counts.dirs + More(n.tally.blocks, exact, isDir), counts.payload))
             > budget)
      && (r.Some? ==> Expects(n.children, name, isDir, r.value.0) && Required(r.value.1) <= budget)
      && (r.Some? ==> r.value.1 == Counters(counts.nodes + 1,
                                            counts.dirs + More(n.tally.blocks, r.value.0.blocks, isDir),
                                            counts.payload))
  {
    var next := counts.(nodes := counts.nodes + 1);
    ReserveExact(n.children, n.tally, name, isDir, next, budget);
    var r := ReserveChild(n.children, n.tally, name, isDir, next, budget);
    if r.Some? {
      SmallPayload(r.value.0.blocks);
      SmallPayload(PendingBlocks(n.children, name));
    }
  }

  // ----- entries ----------------------------------------------------------------------

  /** A new leaf: its name, then its payload. */
  function EnterLeaf(n: Node, name: Name, leaf: Node, counts: Counters, budget: nat): Option<(Node, Counters)>
    requires n.Dir?
  {
    var made := NewChild(n, name, false, counts, budget);
    if Find(n.children, name).Some? || made.None? then None
    else
      var blocks, after := ReservedFiles(leaf), made.value.1;
      var paid := after.(payload := after.payload + blocks);
      if blocks > 0 && Required(paid) > budget then None
      else Some((Dir(Put(n.children, name, leaf), made.value.0), paid))
  }

  /** ensure_dir and the leaf behind it, for an entry below directory n. */
  function Enter(n: Node, path: seq<Name>, leaf: Option<Node>, counts: Counters, budget: nat): Option<(Node, Counters)>
    decreases |path|
  {
    if !n.Dir? then None
    else if |path| == 0 then if leaf.None? then Some((n, counts)) else None
    else if |path| == 1 && leaf.Some? then EnterLeaf(n, path[0], leaf.value, counts, budget)
    else if Find(n.children, path[0]).Some? then
      var sub := Enter(Find(n.children, path[0]).value, path[1..], leaf, counts, budget);
      if sub.None? then None else Some((Dir(Put(n.children, path[0], sub.value.0), n.tally), sub.value.1))
    else
      var made := NewChild(n, path[0], true, counts, budget);
      if made.None? then None
      else
        var sub := Enter(Dir(Nil, FRESH), path[1..], leaf, made.value.1, budget);
        if sub.None? then None else Some((Dir(Put(n.children, path[0], sub.value.0), made.value.0), sub.value.1))
  }

  /** The tree and counters after an entry: the tree is what the entry says, every
      tally is right, the counters follow, and the budget held at the last node. */
  ghost predicate Entered(n: Node, path: seq<Name>, leaf: Option<Node>, counts: Counters, budget: nat, m: Node,
                          after: Counters) {
    && m.Dir? && Accounted(m) && Add(Plain(n), path, leaf) == Some(Plain(m))
    && after.nodes == counts.nodes + Missing(Plain(n), path) && after.dirs + Noted(n) == counts.dirs + Noted(m)
    && after.payload == counts.payload + (if leaf.Some? then ReservedFiles(leaf.value) else 0)
    && (Missing(Plain(n), path) > 0 ==> after.nodes <= MAX_NODES && Required(after) <= budget)
    && (Missing(Plain(n), path) == 0 ==> m == n && after == counts)
  }

  predicate NamesOk(path: seq<Name>) { forall i :: 0 <= i < |path| ==> 0 < |path[i]| <= 255 }

  /** The new child in place. */
  lemma {:induction false} ChildPut(n: Node, name: Name, isDir: bool, t: Tally, child: Node)
    requires n.Dir? && Accounted(n) && Accounted(child) && child.Dir? == isDir && Find(n.children, name).None?
    requires Expects(n.children, name, isDir, t)
    ensures var m := Dir(Put(n.children, name, child), t);
      && Accounted(m) && Noted(m) + DirPayload(n.tally.blocks) == Noted(n) + DirPayload(t.blocks) + Noted(child)
      && Plain(m) == Dir(Put(PlainAll(n.children), name, Plain(child)), FRESH)
  {
    PendingIsPut(n.children, name, child);
    PutPlain(n.children, name, child);
  }

  lemma {:induction false} PutReplaces(c: Children, name: Name, child: Node)
    requires AllAccounted(c) && Accounted(child) && Find(c, name).Some? && child.Dir? == Find(c, name).value.Dir?
    ensures EntryNeeds(Put(c, name, child)) == EntryNeeds(c) && SubDirs(Put(c, name, child)) == SubDirs(c)
    ensures NotedAll(Put(c, name, child)) + Noted(Find(c, name).value) == NotedAll(c) + Noted(child)
    ensures AllAccounted(Put(c, name, child))
    ensures child == Find(c, name).value ==> Put(c, name, child) == c
  {
    match c
    case Nil =>
    case Cons(x, _, rest) => if x != name { PutReplaces(rest, name, child); }
  }

  lemma {:induction false} FoundAccounted(c: Children, name: Name)
    requires AllAccounted(c) && Find(c, name).Some?
    ensures Accounted(Find(c, name).value)
  {
    match c
    case Nil =>
    case Cons(x, _, rest) => if x != name { FoundAccounted(rest, name); }
  }

  lemma {:induction false} FreshAccounted()
    ensures Accounted(Dir(Nil, FRESH)) && Noted(Dir(Nil, FRESH)) == 1
  {
    var d := [Need(1), Need(2)];
    assert EntryNeeds(Nil) == [] && DirNeeds(Nil) == d;
    assert d[..1] == [Need(1)] && d[..1][..0] == [];
    assert d[..|d| - 1] == d[..1] && d[1] == 12;
    assert Largest(d[..1]) == 12 && Sum(d) == 24;
    assert Largest(d) == 12;
    assert Greedy(d, 0) == Fill(1, 0) && Greedy(d, 1) == Fill(1, 12) && Greedy(d, 2) == Fill(1, 24);
    SmallPayload(1);
  }

  lemma {:induction false} LeafEntered(n: Node, name: Name, leaf: Node, counts: Counters, budget: nat)
    requires n.Dir? && Accounted(n) && 0 < |name| <= 255 && !leaf.Dir?
    ensures var r := EnterLeaf(n, name, leaf, counts, budget);
      r.Some? ==> Entered(n, [name], Some(leaf), counts, budget, r.value.0, r.value.1)
  {
    var r := EnterLeaf(n, name, leaf, counts, budget);
    if r.Some? {
      FindPlain(n.children, name);
      NewChildExact(n, name, false, counts, budget);
      ChildPut(n, name, false, NewChild(n, name, false, counts, budget).value.0, leaf);
    }
  }

  /** What an accepted entry does. */
  lemma {:induction false} EnterAccounts(n: Node, path: seq<Name>, leaf: Option<Node>, counts: Counters, budget: nat)
    requires n.Dir? && Accounted(n) && NamesOk(path) && (leaf.Some? ==> !leaf.value.Dir?)
    ensures var r := Enter(n, path, leaf, counts, budget);
      r.Some? ==> Entered(n, path, leaf, counts, budget, r.value.0, r.value.1)
    decreases |path|
  {
    if Enter(n, path, leaf, counts, budget).Some? && |path| > 0 {
      FindPlain(n.children, path[0]);
      if |path| == 1 && leaf.Some? {
        assert path == [path[0]];
        LeafEntered(n, path[0], leaf.value, counts, budget);
      } else if Find(n.children, path[0]).Some? {
        OldAccounts(n, path, leaf, counts, budget);
      } else {
        NewAccounts(n, path, leaf, counts, budget);
      }
    }
  }

  /** Through a child that is there. */
  lemma {:induction false} OldAccounts(n: Node, path: seq<Name>, leaf: Option<Node>, counts: Counters, budget: nat)
    requires n.Dir? && Accounted(n) && NamesOk(path) && (leaf.Some? ==> !leaf.value.Dir?)
    requires |path| > 0 && Find(n.children, path[0]).Some? && !(|path| == 1 && leaf.Some?)
    ensures var r := Enter(n, path, leaf, counts, budget);
      r.Some? ==> Entered(n, path, leaf, counts, budget, r.value.0, r.value.1)
    decreases |path|, 0
  {
    var child := Find(n.children, path[0]).value;
    var sub := Enter(child, path[1..], leaf, counts, budget);
    if sub.Some? {
      FindPlain(n.children, path[0]);
      FoundAccounted(n.children, path[0]);
      EnterAccounts(child, path[1..], leaf, counts, budget);
      PutReplaces(n.children, path[0], sub.value.0);
      PutPlain(n.children, path[0], sub.value.0);
    }
  }

  /** Through a directory made on the way. */
  lemma {:induction false} NewAccounts(n: Node, path: seq<Name>, leaf: Option<Node>, counts: Counters, budget: nat)
    requires n.Dir? && Accounted(n) && NamesOk(path) && (leaf.Some? ==> !leaf.value.Dir?)
    requires |path| > 0 && Find(n.children, path[0]).None? && !(|path| == 1 && leaf.Some?)
    ensures var r := Enter(n, path, leaf, counts, budget);
      r.Some? ==> Entered(n, path, leaf, counts, budget, r.value.0, r.value.1)
    decreases |path|, 0
  {
    var made := NewChild(n, path[0], true, counts, budget);
    if Enter(n, path, leaf, counts, budget).Some? {
      var sub := Enter(Dir(Nil, FRESH), path[1..], leaf, made.value.1, budget);
      FindPlain(n.children, path[0]);
      NewChildExact(n, path[0], true, counts, budget);
      FreshAccounted();
      EnterAccounts(Dir(Nil, FRESH), path[1..], leaf, made.value.1, budget);
      assert PlainAll(Nil) == Nil;
      MissingInEmpty(path[1..]);
      ChildPut(n, path[0], true, made.value.0, sub.value.0);
    }
  }
}
