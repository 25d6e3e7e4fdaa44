/** Two archives of one tree that fits: the reader takes one and refuses the other. */
module Ext2Gap {
  import opened Segments
  import opened Ext2Budget
  import opened Ext2Reader
  import opened Ext2Load

  const FILES: nat := 37
  const BUDGET: nat := 11

  function NameOf(k: int): (r: Name)
    ensures |r| == 100 && r[0] == k
  {
    seq(100, _ => k)
  }

  /** Empty files lo..k of one directory. */
  function Leaves(lo: nat, k: nat): Children
    requires lo <= k
    decreases k - lo
  {
    if lo == k then Nil else Cons(NameOf(lo), File(0), Leaves(lo + 1, k))
  }

  lemma {:induction false} LeavesPut(lo: nat, k: nat)
    requires lo <= k
    ensures Find(Leaves(lo, k), NameOf(k)).None? && Put(Leaves(lo, k), NameOf(k), File(0)) == Leaves(lo, k + 1)
    decreases k - lo
  {
    if lo < k {
      LeavesPut(lo + 1, k);
      assert NameOf(lo)[0] != NameOf(k)[0];
    } else {
      assert Leaves(lo + 1, k + 1) == Nil;
    }
  }

  function Same(k: nat): seq<nat> { seq(k, _ => 108) }

  lemma {:induction false} SameLength(k: nat)
    ensures |Same(k)| == k
  {
  }

  lemma {:induction false} LeavesNeeds(lo: nat, k: nat)
    requires lo <= k
    ensures EntryNeeds(Leaves(lo, k)) == Same(k - lo)
    decreases k - lo
  {
    if lo < k { LeavesNeeds(lo + 1, k); }
  }

  /** They fill exactly one block; only the estimate is two. */
  lemma {:induction false} OneBlock(k: nat)
    requires k <= FILES
    ensures Greedy([12, 12] + Same(k), k + 2) == Fill(1, 24 + 108 * k)
  {
    var needs := [12, 12] + Same(k);
    if k == 0 {
      assert Greedy(needs, 0) == Fill(1, 0) && Greedy(needs, 1) == Fill(1, 12);
    } else {
      OneBlock(k - 1);
      assert needs[..k + 1] == ([12, 12] + Same(k - 1))[..k + 1];
      SameGreedy(needs, [12, 12] + Same(k - 1), k + 1);
    }
  }

  lemma {:induction false} LastFits(k: nat)
    requires k < FILES
    ensures PendingBlocks(Leaves(0, k), NameOf(k)) == 1
  {
    hide Leaves, Greedy, EntryNeeds, Same, Put, PendingBlocks;
    LeavesPut(0, k);
    PendingIsPut(Leaves(0, k), NameOf(k), File(0));
    LeavesNeeds(0, k + 1);
    OneBlock(k + 1);
    assert Need(1) == 12 && Need(2) == 12;
    assert |DirNeeds(Leaves(0, k + 1))| == k + 3 by { SameLength(k + 1); }
  }

  // ----- the reader's state -------------------------------------------------------------

  /** Blocks noted for the directory: with the large file read already the last name
      no longer fits as estimated and is counted exactly. */
  function Blocks(k: nat, early: bool): nat { if k == FILES && !early then 2 else 1 }

  function Tail(early: bool): Children { if early then Cons([1], File(BLOCK), Nil) else Nil }

  function Folder(k: nat, early: bool): Node {
    Dir(Leaves(0, k), if k == 0 then FRESH else Tally(24 + 108 * k, 108, Blocks(k, early), 0))
  }

  function State(k: nat, early: bool): Node {
    if k == 0 then Dir(Tail(early), if early then Tally(36, 12, 1, 0) else FRESH)
    else Dir(Cons([0], Folder(k, early), Tail(early)), Tally(if early then 48 else 36, 12, 1, 1))
  }

  function Counts(k: nat, early: bool): Counters {
    var file := if early then 1 else 0;
    Counters(1 + file + (if k == 0 then 0 else k + 1), if k == 0 then 1 else 1 + Blocks(k, early), file)
  }

  lemma {:induction false} SmallMetadata(nodes: nat)
    requires nodes <= 87
    ensures Metadata(nodes) == 8
  {
  }

  lemma {:induction false} FileNote(k: nat, early: bool, counts: Counters)
    requires k < FILES && counts == Counters(counts.nodes, 2, if early then 1 else 0) && counts.nodes <= 81
    ensures Note(Leaves(0, k), Folder(k, early).tally, NameOf(k), false, counts, BUDGET) == Blocks(k + 1, early)
  {
    LastFits(k);
    hide Leaves, PendingBlocks;
    SmallMetadata(counts.nodes);
    SmallPayload(1);
    SmallPayload(2);
    assert Need(100) == 108;
    assert Estimate(24 + 108 * (k + 1), 108) == if k + 1 == FILES then 2 else 1;
  }

  lemma {:induction false} FileChild(k: nat, early: bool, counts: Counters)
    requires k < FILES && counts == Counters(counts.nodes, 2, if early then 1 else 0) && counts.nodes <= 80
    ensures NewChild(Folder(k, early), NameOf(k), false, counts, BUDGET) ==
            Some((Folder(k + 1, early).tally, Counters(counts.nodes + 1, 1 + Blocks(k + 1, early), counts.payload)))
  {
    FileNote(k, early, counts.(nodes := counts.nodes + 1));
    SmallMetadata(counts.nodes + 1);
    SmallPayload(1);
    SmallPayload(Blocks(k + 1, early));
    assert Need(100) == 108;
    hide Leaves, Note, Metadata, DirPayload, Need, NameOf;
  }

  /** One more file in the directory. */
  lemma {:induction false} FileStep(k: nat, early: bool, counts: Counters)
    requires k < FILES && counts == Counters(counts.nodes, 2, if early then 1 else 0) && counts.nodes <= 80
    ensures EnterLeaf(Folder(k, early), NameOf(k), File(0), counts, BUDGET) ==
            Some((Folder(k + 1, early), Counters(counts.nodes + 1, 1 + Blocks(k + 1, early), counts.payload)))
  {
    LeavesPut(0, k);
    FileChild(k, early, counts);
    assert ReservedFiles(File(0)) == 0;
    hide Leaves, NewChild, Put, Find, ReservedFiles, NameOf;
  }

  function EntryAt(k: nat): Entry { Entry([[0], NameOf(k)], Some(File(0))) }

  const LARGE := Entry([[1]], Some(File(BLOCK)))

  lemma {:induction false} Step(k: nat, early: bool)
    requires k < FILES
    ensures Enter(State(k, early), EntryAt(k).path, EntryAt(k).leaf, Counts(k, early), BUDGET) ==
            Some((State(k + 1, early), Counts(k + 1, early)))
  {
    var path := EntryAt(k).path;
    assert path[1..] == [NameOf(k)];
    if k == 0 {
      FirstStep(early);
    } else {
      FileStep(k, early, Counts(k, early));
      assert Find(State(k, early).children, [0]) == Some(Folder(k, early));
    }
  }

  /** The directory itself. */
  lemma {:induction false} FolderStep(early: bool)
    ensures NewChild(State(0, early), [0], true, Counts(0, early), BUDGET) ==
            Some((State(1, early).tally, Counters(Counts(0, early).nodes + 1, 2, Counts(0, early).payload)))
  {
    SmallMetadata(Counts(0, early).nodes + 1);
    SmallPayload(1);
    assert Need(1) == 12;
    assert Estimate(if early then 48 else 36, 12) == 1;
  }

  lemma {:induction false} FirstPut(early: bool)
    ensures var n := State(0, early);
      Find(n.children, [0]).None? && Put(n.children, [0], Folder(1, early)) == State(1, early).children
    ensures Folder(0, early) == Dir(Nil, FRESH)
    ensures State(1, early) == Dir(State(1, early).children, State(1, early).tally)
    ensures Counts(1, early) == Counters(Counts(0, early).nodes + 2, 1 + Blocks(1, early), Counts(0, early).payload)
  {
    hide Leaves;
    assert Before([0], [1]);
    assert Leaves(0, 0) == Nil by { LeavesNone(); }
  }

  lemma {:induction false} LeavesNone()
    ensures Leaves(0, 0) == Nil
  {
  }

  lemma {:induction false} FirstStep(early: bool)
    ensures Enter(State(0, early), EntryAt(0).path, EntryAt(0).leaf, Counts(0, early), BUDGET) ==
            Some((State(1, early), Counts(1, early)))
  {
    var path := EntryAt(0).path;
    assert path[1..] == [NameOf(0)] && path[1..][0] == NameOf(0);
    FolderStep(early);
    FirstPut(early);
    FileStep(0, early, Counters(Counts(0, early).nodes + 1, 2, Counts(0, early).payload));
    hide EnterLeaf, NewChild, Folder, Put, Find;
  }

  // ----- the two archives ---------------------------------------------------------------

  function Folders(k: nat): seq<Entry> { seq(k, i requires 0 <= i < k => EntryAt(i)) }

  function Archive(k: nat, early: bool): seq<Entry> { (if early then [LARGE] else []) + Folders(k) }

  lemma {:induction false} EarlyFirst()
    ensures ReadAll([LARGE], BUDGET) == Some((State(0, true), Counts(0, true)))
  {
    assert [LARGE][..0] == [];
    assert ReadAll([], BUDGET) == Some((State(0, false), Counts(0, false)));
    SmallMetadata(2);
    SmallPayload(1);
    assert Need(1) == 12 && Estimate(36, 12) == 1;
    assert EntryOk(LARGE) && FileBlocks(BLOCK) == 1;
    assert Put(Nil, [1], File(BLOCK)) == Cons([1], File(BLOCK), Nil);
  }

  lemma {:induction false} ReadsNone(early: bool)
    ensures ReadAll(Archive(0, early), BUDGET) == Some((State(0, early), Counts(0, early)))
  {
    assert Folders(0) == [];
    if early {
      assert Archive(0, early) == [LARGE];
      EarlyFirst();
    }
  }

  lemma {:induction false} ArchiveGrows(k: nat, early: bool)
    requires k > 0
    ensures var all := Archive(k, early);
      |all| > 0 && all[..|all| - 1] == Archive(k - 1, early) && all[|all| - 1] == EntryAt(k - 1)
    ensures EntryOk(EntryAt(k - 1))
  {
  }

  lemma {:induction false} Reads(k: nat, early: bool)
    requires k <= FILES
    ensures ReadAll(Archive(k, early), BUDGET) == Some((State(k, early), Counts(k, early)))
  {
    hide State, Counts, Enter, Archive, EntryAt;
    if k == 0 {
      ReadsNone(early);
    } else {
      Reads(k - 1, early);
      Step(k - 1, early);
      ArchiveGrows(k, early);
    }
  }

  /** The large file last: everything before it was noted as estimated. */
  lemma {:induction false} LateRefused()
    ensures Enter(State(FILES, false), LARGE.path, LARGE.leaf, Counts(FILES, false), BUDGET).None?
  {
    var n, counts := State(FILES, false), Counts(FILES, false);
    SmallMetadata(counts.nodes + 1);
    SmallPayload(1);
    assert Need(1) == 12 && Estimate(48, 12) == 1;
    assert FileBlocks(BLOCK) == 1;
  }

  lemma {:induction false} ReadTree(k: nat, early: bool)
    requires k <= FILES
    ensures TreeOf(Archive(k, early)) == Some(Plain(State(k, early)))
    ensures ReadSoFar(Archive(k, early), State(k, early), Counts(k, early), BUDGET)
  {
    hide *;
    Reads(k, early);
    ReadAccounts(Archive(k, early), BUDGET);
    ReadSoFarTree(Archive(k, early), State(k, early), Counts(k, early), BUDGET);
  }

  lemma {:induction false} ReadSoFarTree(entries: seq<Entry>, root: Node, counts: Counters, budget: nat)
    requires ReadSoFar(entries, root, counts, budget)
    ensures TreeOf(entries) == Some(Plain(root)) && root.Dir? && Accounted(root)
    ensures Required(Counters(CountNodes(root), Noted(root), ReservedFiles(root))) == Required(counts)
    ensures CountNodes(root) <= MAX_NODES && forall i :: 0 <= i < |entries| ==> EntryOk(entries[i])
  {
    PlainSame(root);
  }

  /** The tree, and with the large file in it. */
  lemma {:induction false} PlainState(k: nat, early: bool)
    requires k > 0
    ensures Plain(State(k, early)) == Dir(Cons([0], Dir(PlainAll(Leaves(0, k)), FRESH), Tail(early)), FRESH)
  {
    hide Leaves;
    assert PlainAll(Tail(early)) == Tail(early) by { assert PlainAll(Nil) == Nil; }
    assert Plain(Folder(k, early)) == Dir(PlainAll(Leaves(0, k)), FRESH);
  }

  lemma {:induction false} LateAdds(k: nat)
    requires k == FILES
    ensures Add(Plain(State(k, false)), LARGE.path, LARGE.leaf) == Some(Plain(State(k, true)))
  {
    PlainState(k, false);
    PlainState(k, true);
    hide Leaves, State, Plain, PlainAll;
    var d := Dir(PlainAll(Leaves(0, k)), FRESH);
    assert Put(Cons([0], d, Nil), [1], File(BLOCK)) == Cons([0], d, Cons([1], File(BLOCK), Nil));
  }

  lemma {:induction false} LateIs(before: seq<Entry>)
    ensures TreeOf(before).Some? ==> TreeOf(before + [LARGE]) == Add(TreeOf(before).value, LARGE.path, LARGE.leaf)
    ensures ReadAll(before, BUDGET).Some? ==>
              var (root, counts) := ReadAll(before, BUDGET).value;
              ReadAll(before + [LARGE], BUDGET) == Enter(root, LARGE.path, LARGE.leaf, counts, BUDGET)
    ensures EntryOk(LARGE)
  {
    var late := before + [LARGE];
    assert late[..|late| - 1] == before && late[|late| - 1] == LARGE;
  }

  /** The tree fits and its archive is admissible. */
  lemma {:induction false} TreeFits(entries: seq<Entry>, root: Node, counts: Counters)
    requires ReadSoFar(entries, root, counts, BUDGET) && Required(counts) <= BUDGET && |entries| > 0
    ensures Admissible(entries) && Needed(Plain(root)) <= BUDGET
  {
    NotedCovers(root);
    PlainSame(root);
  }

  lemma {:induction false} SameAdmissible(a: seq<Entry>, b: seq<Entry>)
    requires Admissible(a) && TreeOf(b) == TreeOf(a) && |b| > 0 && forall i :: 0 <= i < |b| ==> EntryOk(b[i])
    ensures Admissible(b)
  {
  }

  lemma {:induction false} CountsFit(k: nat)
    requires k <= FILES
    ensures Required(Counts(k, true)) <= BUDGET
  {
    SmallMetadata(Counts(k, true).nodes);
  }

  lemma {:induction false} ArchivesHold(k: nat)
    ensures |Archive(k, true)| > 0
  {
  }

  /** Both archives are admissible, describe the same tree, and it fits; the one
      with the large file first is read, the one with it last is refused. So no
      condition on the tree alone says what is refused. */
  lemma {:induction false} OrderMatters()
    ensures var early, late := Archive(FILES, true), Archive(FILES, false) + [LARGE];
      && Admissible(early) && Admissible(late) && TreeOf(early) == TreeOf(late)
      && Needed(TreeOf(late).value) <= BUDGET
      && ReadAll(early, BUDGET).Some? && ReadAll(late, BUDGET).None?
  {
    hide *;
    var before, early := Archive(FILES, false), Archive(FILES, true);
    Reads(FILES, true);
    Reads(FILES, false);
    ReadTree(FILES, true);
    ReadTree(FILES, false);
    LateAdds(FILES);
    LateIs(before);
    LateRefused();
    CountsFit(FILES);
    ArchivesHold(FILES);
    TreeFits(early, State(FILES, true), Counts(FILES, true));
    ReadSoFarTree(before, State(FILES, false), Counts(FILES, false), BUDGET);
    SameAdmissible(early, before + [LARGE]);
  }
}
