/** A volume as its clients see it: a plain array of sectors, and what a run of
    operations does to it. */
module SectorArray {
  import opened Segments

  /** One 512-byte sector's contents. */
  type Block = int
  const ZERO_BLOCK: Block := 0
  const SECTOR: nat := 512
  /** A header, trailer or padding unit, in bytes. */
  const SPACE: nat := 4096

  function Min(a: nat, b: nat): nat { if a < b then a else b }

  /** Rounded up to whole 4096-byte regions, in sectors and in bytes. */
  function PadSectors(x: nat): (r: nat)
    ensures x <= r < x + 8 && r % 8 == 0
  {
    (x + 7) / 8 * 8
  }

  function PadBytes(x: nat): (r: nat)
    ensures x <= r < x + 4096 && r % 4096 == 0
  {
    (x + 4095) / 4096 * 4096
  }

  lemma {:induction false} WholeSectors(n: nat)
    ensures (SECTOR * n) / SECTOR == n && (SECTOR * n) % SECTOR == 0
  {
  }

  /** A size no volume of so many sectors grows to. */
  predicate RefusedSize(bytes: nat, sectors: nat) {
    bytes == 0 || bytes % SECTOR != 0 || bytes / SECTOR > MAX_OFFSET || bytes < SECTOR * sectors
  }

  function Zeros(n: nat): (r: seq<Block>)
    ensures |r| == n && forall i :: 0 <= i < n ==> r[i] == ZERO_BLOCK
  {
    seq(n, _ => ZERO_BLOCK)
  }

  /** Reading past the end of a payload file yields zeroes. */
  function Peek(data: seq<Block>, p: nat): Block {
    if p < |data| then data[p] else ZERO_BLOCK
  }

  /** The contents a resolved sector stands for in one payload file. */
  function Held(x: Sector, data: seq<Block>): Block {
    if x.Data? then Peek(data, x.phys) else ZERO_BLOCK
  }

  /** Contents of a logical sector. */
  function ReadAt(l: seq<Mapping>, data: seq<Block>, s: int): Block {
    Held(Resolve(l, s), data)
  }

  ghost function Image(l: seq<Mapping>, data: seq<Block>, n: nat): (r: seq<Block>)
    ensures |r| == n && forall s :: 0 <= s < n ==> r[s] == ReadAt(l, data, s)
  {
    seq(n, s => ReadAt(l, data, s))
  }

  function Splice(disk: seq<Block>, at: nat, blocks: seq<Block>): seq<Block>
    requires at + |blocks| <= |disk|
  {
    disk[..at] + blocks + disk[at + |blocks|..]
  }

  lemma {:induction false} ImageIsSplice(l: seq<Mapping>, data: seq<Block>, l': seq<Mapping>, data': seq<Block>,
                                         n: nat, at: nat, blocks: seq<Block>)
    requires at + |blocks| <= n
    requires forall s: int :: at <= s < at + |blocks| ==> ReadAt(l', data', s) == blocks[s - at]
    requires forall s: int :: !(at <= s < at + |blocks|) ==> ReadAt(l', data', s) == ReadAt(l, data, s)
    ensures Image(l', data', n) == Splice(Image(l, data, n), at, blocks)
  {
  }

  /** A client's operation, in sectors. */
  datatype Op = Write(at: nat, blocks: seq<Block>) | Discard(at: nat, count: nat) | Compaction | Resize(to: nat)

  predicate Admits(disk: seq<Block>, op: Op) {
    match op
    case Write(at, blocks) => at + |blocks| <= |disk|
    case Discard(at, count) => at + count <= |disk|
    case Compaction => true
    case Resize(to) => |disk| <= to
  }

  function Step(disk: seq<Block>, op: Op): seq<Block>
    requires Admits(disk, op)
  {
    match op
    case Write(at, blocks) => Splice(disk, at, blocks)
    case Discard(at, count) => Splice(disk, at, Zeros(count))
    case Compaction => disk
    case Resize(to) => disk + Zeros(to - |disk|)
  }

  /** The sector array after a whole run; None if some operation leaves it. */
  ghost function RunOf(disk: seq<Block>, ops: seq<Op>): Option<seq<Block>> {
    if |ops| == 0 then Some(disk)
    else
      var before := RunOf(disk, ops[..|ops| - 1]);
      if before.Some? && Admits(before.value, ops[|ops| - 1]) then Some(Step(before.value, ops[|ops| - 1])) else None
  }
}
