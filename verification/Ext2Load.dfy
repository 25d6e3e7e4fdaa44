/** Which archives the tar reader accepts: every tree that fits with one spare block
    for each large directory, no tree that does not fit, and in between it depends on
    the order of the entries. */
module Ext2Load {
  import opened Segments
  import opened Ext2Budget
  import opened Ext2Reader

  // ----- trees grow -------------------------------------------------------------------

  predicate NoLess(a: Fill, b: Fill) { a.blocks > b.blocks || (a.blocks == b.blocks && a.used >= b.used) }

  lemma {:induction false} GreedyGrows(needs: seq<nat>, k: nat, x: nat, n: nat)
    requires k <= n <= |needs|
    ensures NoLess(Greedy(WithRecord(needs, k, x), n + 1), Greedy(needs, n))
    decreases n
  {
    var more := WithRecord(needs, k, x);
    if n == k {
      SameGreedy(more, needs, n);
    } else {
      GreedyGrows(needs, k, x, n - 1);
      assert more[n] == needs[n - 1];
    }
  }

  lemma {:induction false} SameGreedy(a: seq<nat>, b: seq<nat>, n: nat)
    requires n <= |a| && n <= |b| && a[..n] == b[..n]
    ensures Greedy(a, n) == Greedy(b, n)
  {
    if n > 0 {
      assert a[..n][..n - 1] == a[..n - 1] && b[..n][..n - 1] == b[..n - 1];
      assert a[..n][n - 1] == a[n - 1] && b[..n][n - 1] == b[n - 1];
      SameGreedy(a, b, n - 1);
    }
  }

  /** A directory with one more name. */
  lemma {:induction false} NameGrows(c: Children, name: Name, n: Node)
    requires Find(c, name).None?
    ensures DirBlocks(c) <= DirBlocks(Put(c, name, n)) && SubDirs(c) <= SubDirs(Put(c, name, n))
    ensures IsLarge(DirNeeds(c)) ==> IsLarge(DirNeeds(Put(c, name, n)))
  {
    PendingIsPut(c, name, n);
    var k := PendingInserts(c, name);
    GreedyGrows(DirNeeds(c), k, Need(|name|), |DirNeeds(c)|);
    SumOfInsert(DirNeeds(c), k, Need(|name|));
    LargestOfInsert(DirNeeds(c), k, Need(|name|));
  }

  /** A directory's needs once a child is put, by what was there before. */
  lemma {:induction false} PutDirs(c: Children, name: Name, n: Node)
    ensures var before, d := Find(c, name), Put(c, name, n);
      && ReservedDirsAll(d) == ReservedDirsAll(c) + ReservedDirs(n)
         - (if before.Some? then ReservedDirs(before.value) else 0)
      && LargeDirsAll(d) == LargeDirsAll(c) + LargeDirs(n) - (if before.Some? then LargeDirs(before.value) else 0)
      && (AllSmall(d) ==> DirsSmall(n)) && (AllFew(d) ==> FewSubdirs(n))
      && (before.Some? && before.value.Dir? == n.Dir? ==> EntryNeeds(d) == EntryNeeds(c) && SubDirs(d) == SubDirs(c))
  {
    match c
    case Nil =>
    case Cons(x, _, rest) => if x != name { PutDirs(rest, name, n); }
  }

  lemma {:induction false} PutLimits(c: Children, name: Name, n: Node)
    requires AllSmall(Put(c, name, n)) && AllFew(Put(c, name, n))
    requires Find(c, name).Some? ==> DirsSmall(Find(c, name).value) && FewSubdirs(Find(c, name).value)
    ensures AllSmall(c) && AllFew(c)
  {
    match c
    case Nil =>
    case Cons(x, _, rest) => if x != name && !(Find(c, name).None? && Before(name, x)) { PutLimits(rest, name, n); }
  }

  predicate WithinLimits(n: Node) { DirsSmall(n) && FewSubdirs(n) }

  /** An entry takes nothing away: what the tree needs does not shrink, and limits
      it keeps afterwards it kept before. */
  lemma {:induction false} AddGrows(n: Node, path: seq<Name>, leaf: Option<Node>)
    requires Add(n, path, leaf).Some? && WithinLimits(Add(n, path, leaf).value) && (leaf.Some? ==> !leaf.value.Dir?)
    ensures var m := Add(n, path, leaf).value;
      ReservedDirs(n) <= ReservedDirs(m) && LargeDirs(n) <= LargeDirs(m) && WithinLimits(n)
    decreases |path|
  {
    if |path| > 0 {
      var child := Find(n.children, path[0]);
      var single := |path| == 1 && leaf.Some?;
      var sub := if child.Some? then child.value else Dir(Nil, FRESH);
      var put := if single then leaf.value else Add(sub, path[1..], leaf).value;
      PutDirs(n.children, path[0], put);
      if !single && child.Some? { AddGrows(sub, path[1..], leaf); }
      PutLimits(n.children, path[0], put);
      if child.None? { NameGrows(n.children, path[0], put); }
      SmallPayload(DirBlocks(n.children));
      SmallPayload(DirBlocks(Put(n.children, path[0], put)));
    }
  }

  // ----- room for an entry ------------------------------------------------------------

  lemma {:induction false} MetadataGrows(a: nat, b: nat)
    requires a <= b
    ensures Metadata(a) <= Metadata(b)
  {
  }

  /** A tree within the limits, and blocks for it and one more for each large
      directory, where the volume holds `counts` and of these `noted` for what the
      tree grew from. */
  ghost predicate Room(tree: Node, leaf: Option<Node>, more: nat, counts: Counters, noted: nat, budget: nat) {
    && WithinLimits(tree) && counts.nodes + more <= MAX_NODES
    && Metadata(counts.nodes + more) + counts.dirs - noted + ReservedDirs(tree) + LargeDirs(tree) + counts.payload
       + (if leaf.Some? then ReservedFiles(leaf.value) else 0) <= budget
  }

  lemma {:induction false} DirsNeedBlocks(n: Node)
    requires n.Dir? && DirsSmall(n)
    ensures ReservedDirs(n) > 0
  {
    SmallPayload(DirBlocks(n.children));
    GreedyStarts(DirNeeds(n.children), |DirNeeds(n.children)|);
  }

  lemma {:induction false} GreedyStarts(needs: seq<nat>, n: nat)
    requires n <= |needs|
    ensures Greedy(needs, n).blocks >= 1
  {
    if n > 0 { GreedyStarts(needs, n - 1); }
  }

  /** The new child's directory is not noted above what the tree needs with it. */
  lemma {:induction false} ChildRoom(n: Node, name: Name, child: Node, counts: Counters, more: nat, leaf: Option<Node>,
                                     budget: nat)
    requires n.Dir? && Accounted(n) && 0 < |name| <= 255 && Find(n.children, name).None? && more > 0
    requires Room(Dir(Put(n.children, name, child), FRESH), leaf, more, counts, Noted(n), budget)
    ensures var made := NewChild(n, name, child.Dir?, counts, budget);
      && made.Some?
      && Room(child, leaf, more - 1, made.value.1, if child.Dir? then 1 else 0, budget)
  {
    var d := Put(n.children, name, child);
    PendingIsPut(n.children, name, child);
    PutDirs(n.children, name, child);
    if child.Dir? { DirsNeedBlocks(child); }
    NotedCoversAll(n.children);
    NewChildExact(n, name, child.Dir?, counts, budget);
    MetadataGrows(counts.nodes + 1, counts.nodes + more);
    SmallPayload(DirBlocks(d));
    SmallPayload(n.tally.blocks);
    var made := NewChild(n, name, child.Dir?, counts, budget);
    if made.Some? { SmallPayload(made.value.0.blocks); }
  }

  lemma {:induction false} PlainTwice(n: Node)
    ensures Plain(Plain(n)) == Plain(n)
  {
    match n case Dir(c, _) => PlainTwiceAll(c); case _ =>
  }

  lemma {:induction false} PlainTwiceAll(c: Children)
    ensures PlainAll(PlainAll(c)) == PlainAll(c)
  {
    match c
    case Nil =>
    case Cons(_, n, rest) =>
      PlainTwice(n);
      PlainTwiceAll(rest);
  }

  lemma {:induction false} AddPlain(n: Node, path: seq<Name>, leaf: Option<Node>)
    requires Plain(n) == n && Add(n, path, leaf).Some? && (leaf.Some? ==> !leaf.value.Dir?)
    ensures Plain(Add(n, path, leaf).value) == Add(n, path, leaf).value
    decreases |path|
  {
    if |path| > 0 {
      var child := Find(n.children, path[0]);
      FindPlain(n.children, path[0]);
      if |path| == 1 && leaf.Some? {
        PutPlain(n.children, path[0], leaf.value);
      } else {
        var sub := if child.Some? then child.value else Dir(Nil, FRESH);
        AddPlain(sub, path[1..], leaf);
        PutPlain(n.children, path[0], Add(sub, path[1..], leaf).value);
      }
    }
  }

  /** Room for the plain tree is room for the tree with tallies. */
  lemma {:induction false} PutRoom(n: Node, name: Name, child: Node, leaf: Option<Node>, more: nat, counts: Counters,
                                   noted: nat, budget: nat)
    requires n.Dir? && Plain(child) == child
    requires Room(Dir(Put(PlainAll(n.children), name, child), FRESH), leaf, more, counts, noted, budget)
    ensures Room(Dir(Put(n.children, name, child), FRESH), leaf, more, counts, noted, budget)
  {
    PutPlain(n.children, name, child);
    PlainSame(Dir(Put(n.children, name, child), FRESH));
  }

  lemma {:induction false} OthersNoted(c: Children, name: Name)
    requires AllAccounted(c) && Find(c, name).Some?
    ensures var child := Find(c, name).value;
      NotedAll(c) - Noted(child) <= ReservedDirsAll(c) + LargeDirsAll(c) - ReservedDirs(child) - LargeDirs(child)
  {
    match c
    case Nil =>
    case Cons(x, n, rest) =>
      if x == name {
        NotedCoversAll(rest);
      } else {
        NotedCovers(n);
        OthersNoted(rest, name);
      }
  }

  /** Room in a tree is room below one of its directories. */
  lemma {:induction false} RoomBelow(n: Node, name: Name, child: Node, leaf: Option<Node>, more: nat, counts: Counters,
                                     budget: nat)
    requires n.Dir? && Accounted(n) && Find(n.children, name).Some? && Find(n.children, name).value.Dir? && child.Dir?
    requires Room(Dir(Put(n.children, name, child), FRESH), leaf, more, counts, Noted(n), budget)
    ensures Room(child, leaf, more, counts, Noted(Find(n.children, name).value), budget)
  {
    OthersNoted(n.children, name);
    PutDirs(n.children, name, child);
    SmallPayload(DirBlocks(n.children));
    SmallPayload(n.tally.blocks);
  }

  /** An entry is accepted when there is room for the tree with it. */
  lemma {:induction false} EnterRoom(n: Node, path: seq<Name>, leaf: Option<Node>, counts: Counters, budget: nat)
    requires n.Dir? && Accounted(n) && NamesOk(path) && (leaf.Some? ==> !leaf.value.Dir?)
    requires Add(Plain(n), path, leaf).Some?
    requires Room(Add(Plain(n), path, leaf).value, leaf, Missing(Plain(n), path), counts, Noted(n), budget)
    ensures Enter(n, path, leaf, counts, budget).Some?
    decreases |path|
  {
    if |path| > 0 {
      FindPlain(n.children, path[0]);
      if |path| == 1 && leaf.Some? {
        PutRoom(n, path[0], leaf.value, leaf, 1, counts, Noted(n), budget);
        ChildRoom(n, path[0], leaf.value, counts, 1, leaf, budget);
      } else {
        var child := Find(n.children, path[0]);
        var sub := if child.Some? then child.value else Dir(Nil, FRESH);
        var put := Add(Plain(sub), path[1..], leaf).value;
        PlainTwice(sub);
        AddPlain(Plain(sub), path[1..], leaf);
        PutRoom(n, path[0], put, leaf, Missing(Plain(n), path), counts, Noted(n), budget);
        if child.Some? { OldRoom(n, path, leaf, counts, budget); } else { NewRoom(n, path, leaf, counts, budget); }
      }
    }
  }

  lemma {:induction false} OldRoom(n: Node, path: seq<Name>, leaf: Option<Node>, counts: Counters, budget: nat)
    requires n.Dir? && Accounted(n) && NamesOk(path) && (leaf.Some? ==> !leaf.value.Dir?)
    requires |path| > 0 && !(|path| == 1 && leaf.Some?) && Find(n.children, path[0]).Some?
    requires var put := Add(Plain(Find(n.children, path[0]).value), path[1..], leaf);
      && put.Some?
      && Room(Dir(Put(n.children, path[0], put.value), FRESH), leaf, Missing(Plain(n), path), counts, Noted(n), budget)
    ensures Enter(n, path, leaf, counts, budget).Some?
    decreases |path|, 0
  {
    var child := Find(n.children, path[0]).value;
    FindPlain(n.children, path[0]);
    FoundAccounted(n.children, path[0]);
    AddCounts(Plain(child), path[1..], leaf);
    RoomBelow(n, path[0], Add(Plain(child), path[1..], leaf).value, leaf, Missing(Plain(n), path), counts, budget);
    EnterRoom(child, path[1..], leaf, counts, budget);
  }

  lemma {:induction false} NewRoom(n: Node, path: seq<Name>, leaf: Option<Node>, counts: Counters, budget: nat)
    requires n.Dir? && Accounted(n) && NamesOk(path) && (leaf.Some? ==> !leaf.value.Dir?)
    requires |path| > 0 && !(|path| == 1 && leaf.Some?) && Find(n.children, path[0]).None?
    requires var put := Add(Plain(Dir(Nil, FRESH)), path[1..], leaf);
      && put.Some?
      && Room(Dir(Put(n.children, path[0], put.value), FRESH), leaf, Missing(Plain(n), path), counts, Noted(n), budget)
    ensures Enter(n, path, leaf, counts, budget).Some?
    decreases |path|, 0
  {
    FindPlain(n.children, path[0]);
    FreshAccounted();
    var empty := Dir(Nil, FRESH);
    var put := Add(Plain(empty), path[1..], leaf).value;
    AddCounts(Plain(empty), path[1..], leaf);
    ChildRoom(n, path[0], put, counts, |path|, leaf, budget);
    MissingInEmpty(path[1..]);
    EnterRoom(empty, path[1..], leaf, NewChild(n, path[0], true, counts, budget).value.1, budget);
  }

  // ----- the whole archive --------------------------------------------------------------

  /** The tree an archive describes. */
  function TreeOf(entries: seq<Entry>): Option<Node> {
    if |entries| == 0 then Some(Dir(Nil, FRESH))
    else
      var before, e := TreeOf(entries[..|entries| - 1]), entries[|entries| - 1];
      if before.None? then None else Add(before.value, e.path, e.leaf)
  }

  /** The tree with its tallies and the counters after the entries, one by one. */
  function ReadAll(entries: seq<Entry>, budget: nat): Option<(Node, Counters)> {
    if |entries| == 0 then Some((Dir(Nil, FRESH), Counters(1, 1, 0)))
    else
      var before, e := ReadAll(entries[..|entries| - 1], budget), entries[|entries| - 1];
      if before.None? || !EntryOk(e) then None else Enter(before.value.0, e.path, e.leaf, before.value.1, budget)
  }

  /** What the image of a tree takes. */
  function Needed(tree: Node): nat { Metadata(CountNodes(tree)) + ReservedDirs(tree) + ReservedFiles(tree) }

  predicate TreeFine(tree: Node) { WithinLimits(tree) && CountNodes(tree) <= MAX_NODES }

  /** An archive the converter should take when its tree fits. */
  predicate Admissible(entries: seq<Entry>) {
    && |entries| > 0 && (forall i :: 0 <= i < |entries| ==> EntryOk(entries[i]))
    && TreeOf(entries).Some? && TreeFine(TreeOf(entries).value)
  }

  /** An archive of nothing but entries for the root itself. */
  predicate OnlyRoot(entries: seq<Entry>) {
    forall i :: 0 <= i < |entries| ==> entries[i] == Entry([], None)
  }

  ghost predicate ReadSoFar(entries: seq<Entry>, root: Node, counts: Counters, budget: nat) {
    && root.Dir? && Accounted(root) && TreeOf(entries) == Some(Plain(root)) && ShapeOk(Plain(root))
    && counts == Counters(CountNodes(Plain(root)), Noted(root), ReservedFiles(Plain(root))) && counts.nodes <= MAX_NODES
    && (counts.nodes > 1 ==> Required(counts) <= budget)
    && (counts.nodes == 1 <==> OnlyRoot(entries)) && (counts.nodes == 1 ==> root == Dir(Nil, FRESH))
    && (forall i :: 0 <= i < |entries| ==> EntryOk(entries[i]))
  }

  lemma {:induction false} RootStep(before: seq<Entry>, e: Entry)
    ensures OnlyRoot(before + [e]) <==> OnlyRoot(before) && e == Entry([], None)
  {
    var all := before + [e];
    assert all[|before|] == e;
    assert forall i :: 0 <= i < |before| ==> all[i] == before[i];
  }

  lemma {:induction false} OneMore(before: seq<Entry>, e: Entry, root: Node, counts: Counters, budget: nat, m: Node,
                                   after: Counters)
    requires ReadSoFar(before, root, counts, budget) && EntryOk(e)
    requires Entered(root, e.path, e.leaf, counts, budget, m, after)
    ensures ReadSoFar(before + [e], m, after, budget)
  {
    assert (before + [e])[..|before|] == before;
    AddCounts(Plain(root), e.path, e.leaf);
    AddShape(Plain(root), e.path, e.leaf);
    RootStep(before, e);
    if counts.nodes == 1 { MissingInEmpty(e.path); }
    if m.children.Cons? && after.nodes == 1 { PlainSame(m); }
  }

  /** What has been read is the archive's tree, accounted, and within the budget. */
  lemma {:induction false} ReadAccounts(entries: seq<Entry>, budget: nat)
    ensures var r := ReadAll(entries, budget);
      r.Some? ==> ReadSoFar(entries, r.value.0, r.value.1, budget)
  {
    if |entries| == 0 {
      FreshAccounted();
      assert Plain(Dir(Nil, FRESH)) == Dir(Nil, FRESH);
    } else if ReadAll(entries, budget).Some? {
      var before, e := entries[..|entries| - 1], entries[|entries| - 1];
      ReadAccounts(before, budget);
      var (root, counts) := ReadAll(before, budget).value;
      EnterAccounts(root, e.path, e.leaf, counts, budget);
      var (m, after) := ReadAll(entries, budget).value;
      OneMore(before, e, root, counts, budget, m, after);
      assert before + [e] == entries;
    }
  }

  /** A tree with a spare block for each large directory is read. */
  lemma {:induction false} RoomReads(entries: seq<Entry>, budget: nat)
    requires TreeOf(entries).Some? && forall i :: 0 <= i < |entries| ==> EntryOk(entries[i])
    requires var tree := TreeOf(entries).value; TreeFine(tree) && Needed(tree) + LargeDirs(tree) <= budget
    ensures ReadAll(entries, budget).Some?
  {
    if |entries| > 0 {
      var before, e := entries[..|entries| - 1], entries[|entries| - 1];
      var small, tree := TreeOf(before).value, TreeOf(entries).value;
      AddCounts(small, e.path, e.leaf);
      AddGrows(small, e.path, e.leaf);
      MetadataGrows(CountNodes(small), CountNodes(tree));
      RoomReads(before, budget);
      ReadAccounts(before, budget);
      var (root, counts) := ReadAll(before, budget).value;
      EnterRoom(root, e.path, e.leaf, counts, budget);
    }
  }

  lemma {:induction false} ReadStops(entries: seq<Entry>, i: nat, budget: nat)
    requires i <= |entries| && ReadAll(entries[..i], budget).None?
    ensures ReadAll(entries, budget).None?
  {
    if i == |entries| {
      assert entries[..i] == entries;
    } else {
      var before := entries[..|entries| - 1];
      assert before[..i] == entries[..i];
      ReadStops(before, i, budget);
    }
  }

  lemma {:induction false} OnlyRootReads(entries: seq<Entry>, budget: nat)
    requires OnlyRoot(entries)
    ensures ReadAll(entries, budget) == Some((Dir(Nil, FRESH), Counters(1, 1, 0)))
  {
    if |entries| > 0 { OnlyRootReads(entries[..|entries| - 1], budget); }
  }

  datatype Reading = Refused | RefusedAtEnd | Loaded(tree: Node)

  /** load_into, from parsed entries. A tree that is loaded is the one the archive
      describes, within every limit and the budget; a tree that would fit with one
      block more for each large directory is loaded, so without large directories
      loading is exact. Once an entry has made a node the exact check at the end can
      not refuse. */
  method Load(entries: seq<Entry>, budget: nat) returns (r: Reading)
    ensures r.Loaded? ==> r.tree.Dir? && TreeOk(r.tree) && TreeOf(entries) == Some(Plain(r.tree))
    ensures r.Loaded? ==> Admissible(entries) && CountNodes(r.tree) <= MAX_NODES
    ensures r.Loaded? ==> Metadata(CountNodes(r.tree)) + Allocated(r.tree) == Needed(TreeOf(entries).value) <= budget
    ensures Admissible(entries) && Needed(TreeOf(entries).value) + LargeDirs(TreeOf(entries).value) <= budget ==>
              r.Loaded?
    ensures r.RefusedAtEnd? <==> |entries| > 0 && OnlyRoot(entries) && Metadata(1) + 1 > budget
    ensures r.Refused? <==> |entries| == 0 || ReadAll(entries, budget).None?
  {
    if |entries| == 0 { return Refused; }
    var root, counts := Dir(Nil, FRESH), Counters(1, 1, 0);
    var i: nat := 0;
    while i < |entries|
      invariant i <= |entries| && ReadAll(entries[..i], budget) == Some((root, counts))
    {
      var e := entries[i];
      var next := if EntryOk(e) then Enter(root, e.path, e.leaf, counts, budget) else None;
      assert entries[..i + 1][..i] == entries[..i];
      if next.None? {
        RefusedRead(entries, i + 1, budget);
        return Refused;
      }
      root, counts := next.value.0, next.value.1;
      i := i + 1;
    }
    assert entries[..i] == entries;
    ReadAccounts(entries, budget);
    r := FinishLoad(entries, root, counts, budget);
  }

  /** A refused entry refuses the archive, which then had no room. */
  lemma {:induction false} RefusedRead(entries: seq<Entry>, i: nat, budget: nat)
    requires i <= |entries| && ReadAll(entries[..i], budget).None?
    ensures ReadAll(entries, budget).None? && !OnlyRoot(entries)
    ensures !(Admissible(entries) && Needed(TreeOf(entries).value) + LargeDirs(TreeOf(entries).value) <= budget)
  {
    ReadStops(entries, i, budget);
    if OnlyRoot(entries) { OnlyRootReads(entries, budget); }
    if Admissible(entries) && Needed(TreeOf(entries).value) + LargeDirs(TreeOf(entries).value) <= budget {
      RoomReads(entries, budget);
    }
  }

  /** finalize_directory_accounting. */
  method FinishLoad(ghost entries: seq<Entry>, root: Node, counts: Counters, budget: nat) returns (r: Reading)
    requires |entries| > 0 && ReadSoFar(entries, root, counts, budget)
    ensures if OnlyRoot(entries) && Metadata(1) + 1 > budget then r == RefusedAtEnd else r == Loaded(root)
    ensures r.RefusedAtEnd? ==> Needed(TreeOf(entries).value) > budget
    ensures r.Loaded? ==> TreeOk(root) && CountNodes(root) == counts.nodes && TreeFine(TreeOf(entries).value)
    ensures r.Loaded? ==> Metadata(counts.nodes) + Allocated(root) == Needed(TreeOf(entries).value) <= budget
  {
    NotedCovers(root);
    PlainSame(root);
    if root == Dir(Nil, FRESH) { FreshAccounted(); }
    var exact := counts.(dirs := ReservedDirs(root));
    if Required(exact) > budget { return RefusedAtEnd; }
    SmallShape(root);
    ReservedIsAllocated(root);
    r := Loaded(root);
  }

  /** Any tree the reader accepts fits: no size check of the writer fires. */
  method Convert(entries: seq<Entry>, requested: Option<nat>) returns (tree: Option<Node>, total: Option<nat>)
    requires requested.Some? ==> 0 < requested.value <= MAX_BLOCKS
    ensures tree.Some? ==> total.Some?
    ensures tree.Some? ==> Metadata(CountNodes(tree.value)) + Allocated(tree.value) <= total.value <= MAX_BLOCKS
    ensures tree.Some? ==> TreeOf(entries) == Some(Plain(tree.value))
    ensures var budget := if requested.Some? then requested.value else MAX_BLOCKS;
      Admissible(entries) && Needed(TreeOf(entries).value) + LargeDirs(TreeOf(entries).value) <= budget ==> tree.Some?
  {
    var reading := Load(entries, if requested.Some? then requested.value else MAX_BLOCKS);
    tree, total := None, None;
    if reading.Loaded? {
      tree := Some(reading.tree);
      total := PlanImage(reading.tree, requested);
    }
  }
}
