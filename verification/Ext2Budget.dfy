/** Sizing of the built-in ext2 image: what the tar reader reserves is what the
    image writer needs. */
module Ext2Budget {
  import opened Segments

  const BLOCK: nat := 4096
  const MAX_BLOCKS: nat := 32768
  const MAX_INODES: nat := 32768
  const MAX_NODES: nat := 32759
  const MAX_DIR_BLOCKS: nat := 12
  const MAX_FILE_BLOCKS: nat := 1036
  const MAX_LINK: nat := 60

  type Name = seq<int>

  /** The smallest directory record for a name. */
  function Need(n: nat): (r: nat)
    ensures 8 + n <= r < 12 + n && r % 4 == 0
  {
    (8 + n + 3) / 4 * 4
  }

  // ----- directory packing ------------------------------------------------------------

  datatype Fill = Fill(blocks: nat, used: nat)

  /** Greedy packing of the first n records: a record that does not fit starts a
      block. */
  function Greedy(needs: seq<nat>, n: nat): Fill
    requires n <= |needs|
  {
    if n == 0 then Fill(1, 0)
    else
      var f := Greedy(needs, n - 1);
      if f.used != 0 && f.used + needs[n - 1] > BLOCK then Fill(f.blocks + 1, needs[n - 1])
      else Fill(f.blocks, f.used + needs[n - 1])
  }

  function Sum(needs: seq<nat>): nat {
    if |needs| == 0 then 0 else Sum(needs[..|needs| - 1]) + needs[|needs| - 1]
  }

  /** Records as directories have them. */
  predicate Records(needs: seq<nat>, most: nat) {
    0 < most <= BLOCK && forall i :: 0 <= i < |needs| ==> 0 < needs[i] <= most
  }

  /** Every block but the last is filled so far that no record would fit. */
  lemma {:induction false} GreedyFills(needs: seq<nat>, most: nat, n: nat)
    requires n <= |needs| && Records(needs, most)
    ensures var f := Greedy(needs, n);
      && f.blocks >= 1 && f.used <= BLOCK && (n > 0 ==> f.used > 0)
      && (f.blocks - 1) * (BLOCK - (most - 1)) + f.used <= Sum(needs[..n])
  {
    if n > 0 {
      GreedyFills(needs, most, n - 1);
      assert needs[..n][..n - 1] == needs[..n - 1];
      var f, g := Greedy(needs, n - 1), BLOCK - (most - 1);
      if f.used != 0 && f.used + needs[n - 1] > BLOCK {
        assert f.used >= g;
        assert f.blocks * g == (f.blocks - 1) * g + g;
      }
    }
  }

  /** The streaming estimate from the total and the largest record. */
  function Estimate(total: nat, most: nat): nat
    requires most > 0
  {
    if total == 0 then 0
    else
      var guaranteed := BLOCK - (if most - 1 < BLOCK - 1 then most - 1 else BLOCK - 1);
      (total + guaranteed - 1) / guaranteed
  }

  lemma {:induction false} CeilAtLeast(b: nat, total: nat, g: nat)
    requires g > 0 && b >= 1 && (b - 1) * g + 1 <= total
    ensures b <= (total + g - 1) / g
  {
    var x := total + g - 1;
    var q := x / g;
    assert x == q * g + x % g && b * g == (b - 1) * g + g;
    if q < b { ProductGap(q, b, g); }
  }

  lemma {:induction false} ProductGap(q: nat, b: nat, g: nat)
    requires q < b
    ensures q * g + g <= b * g
  {
    assert b * g == q * g + (b - q) * g && (b - q) * g == g + (b - q - 1) * g;
  }

  /** The estimate is never below the greedy packing. */
  lemma {:induction false} EstimateCovers(needs: seq<nat>, most: nat)
    requires |needs| > 0 && Records(needs, most)
    ensures Greedy(needs, |needs|).blocks <= Estimate(Sum(needs), most)
  {
    GreedyFills(needs, most, |needs|);
    assert needs[..|needs|] == needs;
    CeilAtLeast(Greedy(needs, |needs|).blocks, Sum(needs), BLOCK - (most - 1));
  }

  /** And it does not matter in which order the entries arrived. */
  lemma {:induction false} SumOfInsert(needs: seq<nat>, k: nat, x: nat)
    requires k <= |needs|
    ensures Sum(needs[..k] + [x] + needs[k..]) == Sum(needs) + x
  {
    var l := needs[..k] + [x] + needs[k..];
    if k == |needs| {
      assert l[..|needs|] == needs;
    } else {
      var rest := needs[..|needs| - 1];
      SumOfInsert(rest, k, x);
      assert needs[k..] == rest[k..] + [needs[|needs| - 1]] && rest[..k] == needs[..k];
      assert l == (rest[..k] + [x] + rest[k..]) + [needs[|needs| - 1]];
      assert l[..|l| - 1] == rest[..k] + [x] + rest[k..];
    }
  }

  // ----- directory blocks ---------------------------------------------------------------

  /** A record as written: at least its need, the last one of a block more. */
  datatype Record = Record(need: nat, len: nat)

  function Lengths(b: seq<Record>): nat {
    if |b| == 0 then 0 else Lengths(b[..|b| - 1]) + b[|b| - 1].len
  }

  function Needs(b: seq<Record>): (r: seq<nat>)
    ensures |r| == |b|
  {
    seq(|b|, i requires 0 <= i < |b| => b[i].need)
  }

  function Flat(out: seq<seq<Record>>): seq<nat> {
    if |out| == 0 then [] else Flat(out[..|out| - 1]) + Needs(out[|out| - 1])
  }

  /** Record lengths tile the block exactly. */
  ghost predicate Tiles(b: seq<Record>) {
    |b| > 0 && Lengths(b) == BLOCK && forall i :: 0 <= i < |b| ==> b[i].len >= b[i].need
  }

  /** Stretching the last record to the end of the block. */
  function Close(b: seq<Record>, used: nat): seq<Record>
    requires |b| > 0 && used <= BLOCK
  {
    b[..|b| - 1] + [b[|b| - 1].(len := b[|b| - 1].len + BLOCK - used)]
  }

  lemma {:induction false} CloseTiles(b: seq<Record>, used: nat)
    requires |b| > 0 && Lengths(b) == used <= BLOCK && forall i :: 0 <= i < |b| ==> b[i].len >= b[i].need
    ensures Tiles(Close(b, used)) && Needs(Close(b, used)) == Needs(b)
  {
    var c := Close(b, used);
    assert c[..|c| - 1] == b[..|b| - 1];
  }

  /** build_dir_data: the records in order, each block tiled exactly, as many
      blocks as the accounting says. */
  method BuildDir(needs: seq<nat>) returns (out: seq<seq<Record>>)
    requires |needs| > 0 && Records(needs, BLOCK)
    ensures Flat(out) == needs && |out| == Greedy(needs, |needs|).blocks
    ensures forall i :: 0 <= i < |out| ==> Tiles(out[i])
  {
    out := [];
    var block: seq<Record> := [];
    var used: nat := 0;
    var n: nat := 0;
    while n < |needs|
      invariant n <= |needs| && Filling(needs, n, out, block, used)
    {
      out, block, used := PutRecord(needs, n, out, block, used);
      n := n + 1;
    }
    LastBlock(needs, out, block, used);
    out := out + [Close(block, used)];
  }

  /** One entry: starts a block when it does not fit. */
  method PutRecord(needs: seq<nat>, n: nat, out: seq<seq<Record>>, block: seq<Record>, used: nat)
    returns (out': seq<seq<Record>>, block': seq<Record>, used': nat)
    requires n < |needs| && Records(needs, BLOCK) && Filling(needs, n, out, block, used)
    ensures Filling(needs, n + 1, out', block', used')
  {
    FillStep(needs, n, out, block, used);
    out', block', used' := out, block, used;
    if used != 0 && used + needs[n] > BLOCK {
      out', block', used' := out + [Close(block, used)], [], 0;
    }
    block', used' := block' + [Record(needs[n], needs[n])], used' + needs[n];
  }

  lemma {:induction false} LastBlock(needs: seq<nat>, out: seq<seq<Record>>, block: seq<Record>, used: nat)
    requires |needs| > 0 && Filling(needs, |needs|, out, block, used)
    ensures var all := out + [Close(block, used)];
      Flat(all) == needs && |all| == Greedy(needs, |needs|).blocks && forall i :: 0 <= i < |all| ==> Tiles(all[i])
  {
    CloseTiles(block, used);
    var all := out + [Close(block, used)];
    assert all[..|all| - 1] == out && needs[..|needs|] == needs;
  }

  ghost predicate Filling(needs: seq<nat>, n: nat, out: seq<seq<Record>>, block: seq<Record>, used: nat)
    requires n <= |needs|
  {
    && Flat(out) + Needs(block) == needs[..n] && Greedy(needs, n) == Fill(|out| + 1, used)
    && Lengths(block) == used <= BLOCK && (n > 0 ==> |block| > 0) && (used == 0 <==> |block| == 0)
    && (forall i :: 0 <= i < |block| ==> block[i].len >= block[i].need)
    && (forall i :: 0 <= i < |out| ==> Tiles(out[i]))
  }

  lemma {:induction false} FillStep(needs: seq<nat>, n: nat, out: seq<seq<Record>>, block: seq<Record>, used: nat)
    requires n < |needs| && Records(needs, BLOCK) && Filling(needs, n, out, block, used)
    ensures var full := used != 0 && used + needs[n] > BLOCK;
      var out' := if full then out + [Close(block, used)] else out;
      var block' := (if full then [] else block) + [Record(needs[n], needs[n])];
      Filling(needs, n + 1, out', block', (if full then 0 else used) + needs[n])
  {
    var rec := Record(needs[n], needs[n]);
    assert needs[..n + 1] == needs[..n] + [needs[n]];
    if used != 0 && used + needs[n] > BLOCK {
      CloseTiles(block, used);
      var out' := out + [Close(block, used)];
      assert out'[..|out|] == out;
      assert [rec][..0] == [] && [] + [rec] == [rec] && Needs([rec]) == [needs[n]];
    } else {
      assert (block + [rec])[..|block|] == block && Needs(block + [rec]) == Needs(block) + [needs[n]];
    }
  }

  // ----- trees --------------------------------------------------------------------------

  /** What the reader keeps of a directory while it grows: the bytes of its
      records, the largest of them, the blocks noted for it, its subdirectories. */
  datatype Tally = Tally(bytes: nat, most: nat, blocks: nat, subdirs: nat)

  /** A directory with only its two fixed records. */
  const FRESH := Tally(24, 12, 1, 0)

  datatype Node = File(size: nat) | Link(size: nat) | Dir(children: Children, tally: Tally)
  datatype Children = Nil | Cons(name: Name, node: Node, rest: Children)

  function CountNodes(n: Node): (r: nat)
    ensures r > 0
  {
    1 + match n case Dir(c, _) => CountAll(c) case _ => 0
  }

  function CountAll(c: Children): nat {
    match c case Nil => 0 case Cons(_, n, rest) => CountNodes(n) + CountAll(rest)
  }

  function EntryNeeds(c: Children): seq<nat> {
    match c case Nil => [] case Cons(name, _, rest) => [Need(|name|)] + EntryNeeds(rest)
  }

  function DirNeeds(c: Children): seq<nat> { [Need(1), Need(2)] + EntryNeeds(c) }

  function DirBlocks(c: Children): nat { Greedy(DirNeeds(c), |DirNeeds(c)|).blocks }

  function CeilDiv(x: nat, d: nat): nat
    requires d > 0
  {
    (x + d - 1) / d
  }

  function FileBlocks(size: nat): nat { CeilDiv(size, BLOCK) }

  /** Data blocks plus the single, double and triple indirect tables. */
  function WithTables(d: nat): nat {
    if d <= 12 then d
    else if d - 12 <= 1024 then d + 1
    else
      var rest := d - 1036;
      var covered := if rest < 1024 * 1024 then rest else 1024 * 1024;
      var double := d + 2 + CeilDiv(covered, 1024);
      if rest <= 1024 * 1024 then double
      else double + 1 + CeilDiv(rest - 1024 * 1024, 1024 * 1024) + CeilDiv(rest - 1024 * 1024, 1024)
  }

  /** The same for a directory of so many data blocks. */
  function DirPayload(blocks: nat): nat { WithTables(FileBlocks(blocks * BLOCK)) }

  /** What the reader reserves for files and links while it reads. */
  function ReservedFiles(n: Node): nat {
    match n
    case File(size) => WithTables(FileBlocks(size))
    case Link(size) => if size > MAX_LINK then FileBlocks(size) else 0
    case Dir(c, _) => ReservedFilesAll(c)
  }

  function ReservedFilesAll(c: Children): nat {
    match c case Nil => 0 case Cons(_, n, rest) => ReservedFiles(n) + ReservedFilesAll(rest)
  }

  /** What it reserves for directories at the end. */
  function ReservedDirs(n: Node): nat {
    match n case Dir(c, _) => DirPayload(DirBlocks(c)) + ReservedDirsAll(c) case _ => 0
  }

  function ReservedDirsAll(c: Children): nat {
    match c case Nil => 0 case Cons(_, n, rest) => ReservedDirs(n) + ReservedDirsAll(rest)
  }

  /** What the writer allocates: directory data as built, file data and one
      indirect table for a large file. */
  function Allocated(n: Node): nat {
    match n
    case File(size) => FileBlocks(size) + if FileBlocks(size) > 12 then 1 else 0
    case Link(_) => 0
    case Dir(c, _) => DirBlocks(c) + AllocatedAll(c)
  }

  function AllocatedAll(c: Children): nat {
    match c case Nil => 0 case Cons(_, n, rest) => Allocated(n) + AllocatedAll(rest)
  }

  /** The limits of the built-in backend. */
  predicate LeafOk(n: Node) {
    match n
    case File(size) => size <= MAX_FILE_BLOCKS * BLOCK
    case Link(size) => 0 < size <= MAX_LINK
    case Dir(_, _) => false
  }

  predicate TreeOk(n: Node) {
    match n case Dir(c, _) => DirBlocks(c) <= MAX_DIR_BLOCKS && ChildrenOk(c) case _ => LeafOk(n)
  }

  predicate ChildrenOk(c: Children) {
    match c case Nil => true case Cons(name, n, rest) => 0 < |name| <= 255 && TreeOk(n) && ChildrenOk(rest)
  }

  /** The reader's accounting is the writer's allocation. */
  lemma {:induction false} ReservedIsAllocated(n: Node)
    requires TreeOk(n)
    ensures Allocated(n) == ReservedFiles(n) + ReservedDirs(n)
  {
    match n
    case Dir(c, _) => ReservedIsAllocatedAll(c);
    case File(size) => assert FileBlocks(size) <= MAX_FILE_BLOCKS;
    case Link(_) =>
  }

  lemma {:induction false} ReservedIsAllocatedAll(c: Children)
    requires ChildrenOk(c)
    ensures AllocatedAll(c) == ReservedFilesAll(c) + ReservedDirsAll(c)
  {
    match c
    case Nil =>
    case Cons(_, n, rest) =>
      ReservedIsAllocated(n);
      ReservedIsAllocatedAll(rest);
  }

  /** Directory blocks as built are as many as accounted. */
  method BuildDirData(c: Children) returns (out: seq<seq<Record>>)
    requires ChildrenOk(c)
    ensures |out| == DirBlocks(c) && Flat(out) == DirNeeds(c) && forall i :: 0 <= i < |out| ==> Tiles(out[i])
  {
    NeedsFit(c);
    out := BuildDir(DirNeeds(c));
  }

  lemma {:induction false} NeedsFit(c: Children)
    requires ChildrenOk(c)
    ensures forall i :: 0 <= i < |EntryNeeds(c)| ==> 0 < EntryNeeds(c)[i] <= BLOCK
  {
    match c
    case Nil =>
    case Cons(_, _, rest) => NeedsFit(rest);
  }

  // ----- reading --------------------------------------------------------------------------

  /** Byte order of names, as the child map keeps them. */
  predicate Before(a: Name, b: Name) {
    |b| > 0 && (|a| == 0 || a[0] < b[0] || (a[0] == b[0] && Before(a[1..], b[1..])))
  }

  function Find(c: Children, name: Name): Option<Node> {
    match c case Nil => None case Cons(x, n, rest) => if x == name then Some(n) else Find(rest, name)
  }

  /** Sets the child of that name, at its place in name order if it is new. */
  function Put(c: Children, name: Name, n: Node): Children {
    match c
    case Nil => Cons(name, n, Nil)
    case Cons(x, prev, rest) =>
      if x == name then Cons(x, n, rest)
      else if Find(c, name).None? && Before(name, x) then Cons(name, n, c)
      else Cons(x, prev, Put(rest, name, n))
  }

  /** The tree after an entry, tallies aside: missing parents are made, a leaf must be new; None
      when a parent is not a directory, the leaf exists or names the root. */
  function Add(n: Node, path: seq<Name>, leaf: Option<Node>): Option<Node>
    decreases |path|
  {
    if !n.Dir? then None
    else if |path| == 0 then if leaf.None? then Some(n) else None
    else
      var child := Find(n.children, path[0]);
      if |path| == 1 && leaf.Some? then
        if child.Some? then None else Some(Dir(Put(n.children, path[0], leaf.value), FRESH))
      else
        var next := Add(if child.Some? then child.value else Dir(Nil, FRESH), path[1..], leaf);
        if next.None? then None else Some(Dir(Put(n.children, path[0], next.value), FRESH))
  }

  /** How many nodes an entry creates. */
  function Missing(n: Node, path: seq<Name>): nat
    decreases |path|
  {
    if |path| == 0 then 0
    else if n.Dir? && Find(n.children, path[0]).Some? then Missing(Find(n.children, path[0]).value, path[1..])
    else |path|
  }

  lemma {:induction false} PutCounts(c: Children, name: Name, n: Node)
    ensures var before := Find(c, name);
      && CountAll(Put(c, name, n)) ==
         CountAll(c) + CountNodes(n) - (if before.Some? then CountNodes(before.value) else 0)
      && ReservedFilesAll(Put(c, name, n)) ==
         ReservedFilesAll(c) + ReservedFiles(n) - (if before.Some? then ReservedFiles(before.value) else 0)
  {
    match c
    case Nil =>
    case Cons(x, m, rest) => if x != name { PutCounts(rest, name, n); }
  }

  /** The reader's counters follow the tree. */
  lemma {:induction false} AddCounts(n: Node, path: seq<Name>, leaf: Option<Node>)
    requires Add(n, path, leaf).Some? && (leaf.Some? ==> !leaf.value.Dir?)
    ensures var r := Add(n, path, leaf).value;
      && r.Dir? && CountNodes(r) == CountNodes(n) + Missing(n, path)
      && ReservedFiles(r) == ReservedFiles(n) + if leaf.Some? then ReservedFiles(leaf.value) else 0
    decreases |path|
  {
    if |path| > 0 {
      var child := Find(n.children, path[0]);
      if |path| == 1 && leaf.Some? {
        PutCounts(n.children, path[0], leaf.value);
      } else {
        var sub := if child.Some? then child.value else Dir(Nil, FRESH);
        AddCounts(sub, path[1..], leaf);
        PutCounts(n.children, path[0], Add(sub, path[1..], leaf).value);
        if child.None? { MissingInEmpty(path[1..]); }
      }
    }
  }

  lemma {:induction false} MissingInEmpty(path: seq<Name>)
    ensures Missing(Dir(Nil, FRESH), path) == |path|
  {
  }

  function InodeCount(nodes: nat): nat {
    var want := if nodes + 41 < 128 then 128 else nodes + 41;
    CeilDiv(if want < MAX_INODES then want else MAX_INODES, 128) * 128
  }

  /** Superblock, descriptors, bitmaps and the inode table. */
  function Metadata(nodes: nat): nat { 4 + CeilDiv(InodeCount(nodes) * 128, BLOCK) }

  datatype Entry = Entry(path: seq<Name>, leaf: Option<Node>)

  predicate EntryOk(e: Entry) {
    && (forall i :: 0 <= i < |e.path| ==> 0 < |e.path[i]| <= 255)
    && (e.leaf.Some? ==> LeafOk(e.leaf.value))
  }

  /** Leaves and names within limits, whatever the directory sizes. */
  predicate ShapeOk(n: Node) {
    match n case Dir(c, _) => ShapesOk(c) case _ => LeafOk(n)
  }

  predicate ShapesOk(c: Children) {
    match c case Nil => true case Cons(name, n, rest) => 0 < |name| <= 255 && ShapeOk(n) && ShapesOk(rest)
  }

  predicate DirsSmall(n: Node) {
    match n case Dir(c, _) => DirBlocks(c) <= MAX_DIR_BLOCKS && AllSmall(c) case _ => true
  }

  predicate AllSmall(c: Children) {
    match c case Nil => true case Cons(_, n, rest) => DirsSmall(n) && AllSmall(rest)
  }

  lemma {:induction false} SmallShape(n: Node)
    requires ShapeOk(n) && DirsSmall(n)
    ensures TreeOk(n)
  {
    match n case Dir(c, _) => SmallShapes(c); case _ =>
  }

  lemma {:induction false} SmallShapes(c: Children)
    requires ShapesOk(c) && AllSmall(c)
    ensures ChildrenOk(c)
  {
    match c
    case Nil =>
    case Cons(_, n, rest) => SmallShape(n); SmallShapes(rest);
  }

  lemma {:induction false} PutShape(c: Children, name: Name, n: Node)
    requires ShapesOk(c) && ShapeOk(n) && 0 < |name| <= 255
    ensures ShapesOk(Put(c, name, n))
  {
    match c
    case Nil =>
    case Cons(x, _, rest) => PutShape(rest, name, n);
  }

  lemma {:induction false} FindShape(c: Children, name: Name)
    requires ShapesOk(c) && Find(c, name).Some?
    ensures ShapeOk(Find(c, name).value)
  {
    match c
    case Nil =>
    case Cons(x, _, rest) => if x != name { FindShape(rest, name); }
  }

  lemma {:induction false} AddShape(n: Node, path: seq<Name>, leaf: Option<Node>)
    requires ShapeOk(n) && Add(n, path, leaf).Some? && EntryOk(Entry(path, leaf))
    ensures ShapeOk(Add(n, path, leaf).value)
    decreases |path|
  {
    if |path| > 0 {
      var child := Find(n.children, path[0]);
      if child.Some? { FindShape(n.children, path[0]); }
      if |path| == 1 && leaf.Some? {
        PutShape(n.children, path[0], leaf.value);
      } else {
        var sub := if child.Some? then child.value else Dir(Nil, FRESH);
        AddShape(sub, path[1..], leaf);
        PutShape(n.children, path[0], Add(sub, path[1..], leaf).value);
      }
    }
  }

  // ----- writing --------------------------------------------------------------------------

  /** The size checks of write_ext2_image; None when one fires. */
  method PlanImage(root: Node, requested: Option<nat>) returns (r: Option<nat>)
    requires TreeOk(root)
    ensures r.Some? ==> Metadata(CountNodes(root)) + Allocated(root) <= r.value <= MAX_BLOCKS
    ensures r.Some? <==>
            && CountNodes(root) <= MAX_NODES
            && Metadata(CountNodes(root)) + Allocated(root) <= (if requested.Some? then requested.value else MAX_BLOCKS)
            && (requested.Some? ==> 0 < requested.value <= MAX_BLOCKS)
  {
    var used := 10 + (CountNodes(root) - 1);
    if used > MAX_INODES { return None; }
    var required := Metadata(CountNodes(root)) + Allocated(root);
    var total;
    if requested.Some? {
      if requested.value == 0 || requested.value > MAX_BLOCKS || requested.value < required { return None; }
      total := requested.value;
    } else {
      total := CeilDiv(if required < 1024 then 1024 else required, 256) * 256;
    }
    if total == 0 || total > MAX_BLOCKS { return None; }
    r := Some(total);
  }
}
