/** Little-endian integers, the 16-byte mapping record and the 390-byte header. */
module Codec {
  import opened Segments
  import opened SectorArray

  type Byte = b: int | 0 <= b < 256
  type Bytes = seq<Byte>

  const TWO_50: nat := 0x4_0000_0000_0000
  const TWO_55: nat := 0x80_0000_0000_0000
  const TWO_56: nat := 0x100_0000_0000_0000
  const TWO_64: nat := 0x1_0000_0000_0000_0000

  /** 256 to the n. */
  function Limit(n: nat): (r: nat)
    ensures r > 0
  {
    if n == 0 then 1 else 256 * Limit(n - 1)
  }

  function StoreLe(v: nat, n: nat): (r: Bytes)
    ensures |r| == n
  {
    if n == 0 then [] else [v % 256] + StoreLe(v / 256, n - 1)
  }

  function LoadLe(b: Bytes): (r: nat)
    ensures r < Limit(|b|)
  {
    if |b| == 0 then 0 else
      var rest := LoadLe(b[1..]);
      b[0] + 256 * rest
  }

  /** Loading what was stored gives the value's low bytes. */
  lemma {:induction false} LoadStore(v: nat, n: nat)
    requires v < Limit(n)
    ensures LoadLe(StoreLe(v, n)) == v
  {
    if n > 0 {
      LoadStore(v / 256, n - 1);
      assert StoreLe(v, n)[1..] == StoreLe(v / 256, n - 1);
    }
  }

  lemma {:induction false} StoreStep(x: Byte, rest: nat, n: nat)
    ensures StoreLe(x + 256 * rest, n + 1) == [x] + StoreLe(rest, n)
  {
    assert (x + 256 * rest) % 256 == x && (x + 256 * rest) / 256 == rest;
  }

  lemma {:induction false} StoreLoad(b: Bytes)
    ensures StoreLe(LoadLe(b), |b|) == b
  {
    if |b| > 0 {
      StoreLoad(b[1..]);
      var rest := LoadLe(b[1..]);
      StoreStep(b[0], rest, |b| - 1);
      assert [b[0]] + b[1..] == b;
    }
  }

  lemma {:induction false} Limits()
    ensures Limit(1) == 256 && Limit(2) == 0x1_0000 && Limit(4) == 0x1_0000_0000 && Limit(8) == TWO_64
  {
    assert Limit(3) == 0x100_0000;
    assert Limit(5) == 0x100_0000_0000 && Limit(6) == 0x1_0000_0000_0000 && Limit(7) == TWO_56;
  }

  // ----- mapping records -----------------------------------------------------------

  /** Every field fits its bits. */
  predicate Encodable(m: Mapping) {
    m.offset < TWO_50 && m.length <= MAX_LENGTH && m.moffset < TWO_55 && m.tag < 256
  }

  /** The two words of a record. */
  function Word0(m: Mapping): nat { m.offset % 0x4_0000_0000_0000 + 0x4_0000_0000_0000 * (m.length % 16384) }

  function Word1(m: Mapping): nat {
    m.moffset % 0x80_0000_0000_0000 + 0x80_0000_0000_0000 * (if m.zeroed then 1 else 0)
    + 0x100_0000_0000_0000 * (m.tag % 256)
  }

  function Unpack(w0: nat, w1: nat): Mapping {
    Mapping(w0 % 0x4_0000_0000_0000, w0 / 0x4_0000_0000_0000,
            w1 % 0x80_0000_0000_0000, w1 / 0x80_0000_0000_0000 % 2 == 1, w1 / 0x100_0000_0000_0000)
  }

  function Encode(m: Mapping): (r: Bytes)
    ensures |r| == 16
  {
    StoreLe(Word0(m), 8) + StoreLe(Word1(m), 8)
  }

  function Decode(b: Bytes): (m: Mapping)
    requires |b| == 16
    ensures Encodable(m)
  {
    Limits();
    Unpack(LoadLe(b[..8]), LoadLe(b[8..]))
  }

  lemma {:induction false} UnpackWords(m: Mapping)
    ensures Word0(m) < TWO_64 && Word1(m) < TWO_64
    ensures Unpack(Word0(m), Word1(m)) ==
            Mapping(m.offset % 0x4_0000_0000_0000, m.length % 16384,
                    m.moffset % 0x80_0000_0000_0000, m.zeroed, m.tag % 256)
  {
  }

  lemma {:induction false} WordsUnpack(w0: nat, w1: nat)
    requires w0 < TWO_64 && w1 < TWO_64
    ensures Word0(Unpack(w0, w1)) == w0 && Word1(Unpack(w0, w1)) == w1
  {
    var tag, low := w1 / 0x100_0000_0000_0000, w1 % 0x100_0000_0000_0000;
    var z, moffset := low / 0x80_0000_0000_0000, low % 0x80_0000_0000_0000;
    assert w1 == 0x80_0000_0000_0000 * (2 * tag + z) + moffset;
    assert w1 / 0x80_0000_0000_0000 == 2 * tag + z && w1 % 0x80_0000_0000_0000 == moffset;
  }

  /** A record comes back exactly when its fields fit. */
  lemma {:induction false} DecodeEncode(m: Mapping)
    ensures Decode(Encode(m)) == m <==> Encodable(m)
  {
    Limits();
    UnpackWords(m);
    LoadStore(Word0(m), 8);
    LoadStore(Word1(m), 8);
    assert Encode(m)[..8] == StoreLe(Word0(m), 8) && Encode(m)[8..] == StoreLe(Word1(m), 8);
  }

  /** Every 16 bytes are the encoding of what they decode to. */
  lemma {:induction false} EncodeDecode(b: Bytes)
    requires |b| == 16
    ensures Encode(Decode(b)) == b
  {
    Limits();
    StoreLoad(b[..8]);
    StoreLoad(b[8..]);
    WordsUnpack(LoadLe(b[..8]), LoadLe(b[8..]));
    assert b[..8] + b[8..] == b;
  }

  /** The whole records of a log region, in order. */
  function DecodeAll(b: Bytes): (r: seq<Mapping>)
    requires |b| % 16 == 0
    ensures |r| == |b| / 16
  {
    if |b| == 0 then [] else DecodeAll(b[..|b| - 16]) + [Decode(b[|b| - 16..])]
  }

  function EncodeAll(l: seq<Mapping>): (r: Bytes)
    ensures |r| == 16 * |l|
  {
    if |l| == 0 then [] else EncodeAll(l[..|l| - 1]) + Encode(l[|l| - 1])
  }

  lemma {:induction false} DecodeMore(b: Bytes, m: Mapping)
    requires |b| % 16 == 0 && Encodable(m)
    ensures DecodeAll(b + Encode(m)) == DecodeAll(b) + [m]
  {
    DecodeEncode(m);
    var c := b + Encode(m);
    assert c[..|c| - 16] == b && c[|c| - 16..] == Encode(m);
  }

  lemma {:induction false} EncodeTake(l: seq<Mapping>, n: nat)
    requires n <= |l|
    ensures EncodeAll(l)[..16 * n] == EncodeAll(l[..n])
  {
    if n == |l| {
      assert l[..n] == l;
    } else {
      var rest := l[..|l| - 1];
      EncodeTake(rest, n);
      assert rest[..n] == l[..n];
      assert (EncodeAll(rest) + Encode(l[|l| - 1]))[..16 * n] == EncodeAll(rest)[..16 * n];
    }
  }

  lemma {:induction false} DecodeEncodeAll(l: seq<Mapping>)
    requires forall i :: 0 <= i < |l| ==> Encodable(l[i])
    ensures DecodeAll(EncodeAll(l)) == l
  {
    if |l| > 0 {
      DecodeEncodeAll(l[..|l| - 1]);
      DecodeMore(EncodeAll(l[..|l| - 1]), l[|l| - 1]);
      assert l[..|l| - 1] + [l[|l| - 1]] == l;
    }
  }

  /** A log's bytes, cut after n records, decode to its first n records. */
  lemma {:induction false} DecodeCut(l: seq<Mapping>, n: nat)
    requires n <= |l| && forall i :: 0 <= i < |l| ==> Encodable(l[i])
    ensures DecodeAll(EncodeAll(l)[..16 * n]) == l[..n]
  {
    EncodeTake(l, n);
    DecodeEncodeAll(l[..n]);
  }

  // ----- headers --------------------------------------------------------------------

  const HEADER_SIZE: nat := 390
  const MAGIC: Bytes := [0x4C, 0x53, 0x4D, 0x54, 0x00, 0x01, 0x02, 0x00,
                         0x65, 0x7E, 0x63, 0xD2, 0x94, 0x44, 0x08, 0x4C, 0xA2, 0xD2, 0xC8, 0xEC, 0x4F, 0xCF, 0xAE, 0x8A]

  datatype Header = Header(flags: nat, indexOffset: nat, indexSize: nat, virtualSize: nat,
                           uuid: Bytes, parent: Bytes, reserved: nat, version: nat, subVersion: nat, userTag: Bytes)

  function ZeroBytes(n: nat): (r: Bytes)
    ensures |r| == n && forall i :: 0 <= i < n ==> r[i] == 0
  {
    seq(n, _ => 0)
  }

  /** A string up to its first NUL. */
  function ReadStr(b: Bytes): (r: Bytes)
    ensures |r| <= |b| && 0 !in r
  {
    if |b| == 0 || b[0] == 0 then [] else [b[0]] + ReadStr(b[1..])
  }

  function PadStr(s: Bytes, n: nat): (r: Bytes)
    requires |s| <= n
    ensures |r| == n
  {
    s + ZeroBytes(n - |s|)
  }

  lemma {:induction false} ReadPad(s: Bytes, n: nat)
    requires |s| < n && 0 !in s
    ensures ReadStr(PadStr(s, n)) == s
  {
    if |s| > 0 {
      ReadPad(s[1..], n - 1);
      assert PadStr(s, n)[1..] == PadStr(s[1..], n - 1);
      assert [s[0]] + s[1..] == s;
    }
  }

  /** What serialize accepts and its fields can hold. */
  predicate Storable(h: Header) {
    && h.flags < 0x1_0000_0000 && h.indexOffset < TWO_64 && h.indexSize < TWO_64 && h.virtualSize < TWO_64
    && |h.uuid| < 37 && |h.parent| < 37 && |h.userTag| < 256 && 0 !in h.uuid && 0 !in h.parent && 0 !in h.userTag
    && h.reserved < 0x1_0000 && h.version < 256 && h.subVersion < 256
  }

  function Numbers(h: Header): (r: Bytes)
    ensures |r| == 56
  {
    MAGIC + StoreLe(HEADER_SIZE, 4) + StoreLe(h.flags, 4)
    + StoreLe(h.indexOffset, 8) + StoreLe(h.indexSize, 8) + StoreLe(h.virtualSize, 8)
  }

  function Names(h: Header): (r: Bytes)
    requires Storable(h)
    ensures |r| == 334
  {
    PadStr(h.uuid, 37) + PadStr(h.parent, 37) + StoreLe(h.reserved, 2)
    + [h.version, h.subVersion] + PadStr(h.userTag, 256)
  }

  function Serialize(h: Header): (r: Bytes)
    requires Storable(h)
    ensures |r| == SPACE
  {
    Numbers(h) + Names(h) + ZeroBytes(SPACE - HEADER_SIZE)
  }

  /** None for a bad magic or size field. */
  function Parse(b: Bytes): Option<Header>
    requires |b| == SPACE
  {
    if b[..24] != MAGIC || LoadLe(b[24..28]) != HEADER_SIZE then None
    else Some(Header(LoadLe(b[28..32]), LoadLe(b[32..40]), LoadLe(b[40..48]), LoadLe(b[48..56]),
                     ReadStr(b[56..93]), ReadStr(b[93..130]), LoadLe(b[130..132]), b[132], b[133],
                     ReadStr(b[134..390])))
  }

  lemma {:induction false} NumbersAt(h: Header, b: Bytes)
    requires |b| == SPACE && b[..56] == Numbers(h)
    ensures b[..24] == MAGIC && b[24..28] == StoreLe(HEADER_SIZE, 4) && b[28..32] == StoreLe(h.flags, 4)
    ensures b[32..40] == StoreLe(h.indexOffset, 8) && b[40..48] == StoreLe(h.indexSize, 8)
    ensures b[48..56] == StoreLe(h.virtualSize, 8)
  {
    var n := Numbers(h);
    assert b[..24] == n[..24] && b[24..28] == n[24..28] && b[28..32] == n[28..32];
    assert b[32..40] == n[32..40] && b[40..48] == n[40..48] && b[48..56] == n[48..56];
  }

  lemma {:induction false} NamesAt(h: Header, b: Bytes)
    requires |b| == SPACE && Storable(h) && b[56..390] == Names(h)
    ensures b[56..93] == PadStr(h.uuid, 37) && b[93..130] == PadStr(h.parent, 37)
    ensures b[130..132] == StoreLe(h.reserved, 2)
    ensures b[132] == h.version && b[133] == h.subVersion && b[134..390] == PadStr(h.userTag, 256)
  {
    var n := Names(h);
    assert n[..37] == PadStr(h.uuid, 37) && n[37..74] == PadStr(h.parent, 37) && n[74..76] == StoreLe(h.reserved, 2);
    assert n[76] == h.version && n[77] == h.subVersion && n[78..] == PadStr(h.userTag, 256);
    assert forall i :: 0 <= i < 334 ==> b[56 + i] == n[i];
    assert b[56..93] == n[..37] && b[93..130] == n[37..74] && b[130..132] == n[74..76] && b[134..390] == n[78..];
  }

  /** parse undoes serialize. */
  lemma {:induction false} ParseSerialize(h: Header)
    requires Storable(h)
    ensures Parse(Serialize(h)) == Some(h)
  {
    var b := Serialize(h);
    assert b[..56] == Numbers(h) && b[56..390] == Names(h);
    NumbersAt(h, b);
    NamesAt(h, b);
    Limits();
    LoadStore(HEADER_SIZE, 4);
    LoadStore(h.flags, 4);
    LoadStore(h.indexOffset, 8);
    LoadStore(h.indexSize, 8);
    LoadStore(h.virtualSize, 8);
    LoadStore(h.reserved, 2);
    ReadPad(h.uuid, 37);
    ReadPad(h.parent, 37);
    ReadPad(h.userTag, 256);
  }

  /** Overwriting the eight capacity bytes of a header. */
  function WithCapacity(b: Bytes, size: nat): (r: Bytes)
    requires |b| == SPACE
    ensures |r| == SPACE
  {
    b[..48] + StoreLe(size, 8) + b[56..]
  }

  /** ... changes the capacity field and nothing else. */
  lemma {:induction false} ParseWithCapacity(b: Bytes, size: nat)
    requires |b| == SPACE && size < TWO_64
    ensures Parse(b).None? ==> Parse(WithCapacity(b, size)).None?
    ensures Parse(b).Some? ==> Parse(WithCapacity(b, size)) == Some(Parse(b).value.(virtualSize := size))
  {
    var c := WithCapacity(b, size);
    Limits();
    LoadStore(size, 8);
    assert c[..24] == b[..24] && c[24..28] == b[24..28] && c[28..32] == b[28..32] && c[32..40] == b[32..40];
    assert c[40..48] == b[40..48];
    assert c[48..56] == StoreLe(size, 8);
    assert c[56..93] == b[56..93] && c[93..130] == b[93..130] && c[130..132] == b[130..132];
    assert c[134..390] == b[134..390];
  }

  // ----- the headers of a writable pair ------------------------------------------------

  predicate HexDigit(b: Byte) { 48 <= b <= 57 || 65 <= b <= 70 || 97 <= b <= 102 }

  predicate UuidAt(i: nat, b: Byte) {
    if i == 8 || i == 13 || i == 18 || i == 23 then b == 45 else HexDigit(b)
  }

  predicate UuidValid(u: Bytes) {
    |u| == 36 && forall i :: 0 <= i < 36 ==> UuidAt(i, u[i])
  }

  predicate CapacityOk(size: nat) { size % SECTOR == 0 && size / SECTOR <= MAX_OFFSET }

  /** validate_pair of both writable kinds, which differ in one flag only. */
  predicate PairOk(kind: nat, d: Header, x: Header, dataBytes: nat, indexBytes: nat) {
    && d.flags == kind + 3 && x.flags == kind + 1
    && d.version == x.version == d.subVersion == x.subVersion == 1 && d.reserved == x.reserved == 0
    && UuidValid(d.uuid) && d.uuid == x.uuid && d.parent == x.parent && (d.parent == [] || UuidValid(d.parent))
    && d.virtualSize == x.virtualSize > 0 && CapacityOk(d.virtualSize)
    && d.indexOffset == d.indexSize == x.indexSize == 0 && x.indexOffset == SPACE
    && SPACE <= dataBytes && dataBytes % SECTOR == 0 && dataBytes / SECTOR < NO_PHYSICAL
    && SPACE <= indexBytes && (indexBytes - SPACE) % 16 == 0 && (indexBytes - SPACE) / 16 <= MAX_LOG_RECORDS
  }
}
