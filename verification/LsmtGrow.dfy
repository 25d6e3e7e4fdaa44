/** Recovering an interrupted grow of an LSMT upper: the capacity test that tells
    a short forward write from anything else. */
module LsmtGrow {
  import opened Segments
  import opened SectorArray
  import opened Codec
  import opened HybridReplay
  import opened LsmtReplay
  import opened LsmtJournal

  /** A value's low p bytes, and the value with them cleared: masking with the
      prefix mask and with its complement. */
  function Low(x: nat, p: nat): nat {
    if p == 0 then 0 else x % 256 + 256 * Low(x / 256, p - 1)
  }

  function High(x: nat, p: nat): nat {
    if p == 0 then x else 256 * High(x / 256, p - 1)
  }

  /** The low p bytes of `target` under the high bytes of `prior`. */
  function Blend(prior: nat, target: nat, p: nat): nat { Low(target, p) + High(prior, p) }

  /** The loop over the nine prefixes. */
  method CapacityMatches(v: nat, prior: nat, target: nat) returns (ok: bool)
    ensures ok <==> exists p: nat :: p <= 8 && v == Blend(prior, target, p)
  {
    ok := false;
    var p: nat := 0;
    while p <= 8
      invariant p <= 9
      invariant ok <==> exists k: nat :: k < p && v == Blend(prior, target, k)
    {
      if v == Blend(prior, target, p) { ok := true; }
      p := p + 1;
    }
  }

  /** The first p bytes of a's encoding followed by the rest of b's. */
  function Torn64(a: nat, b: nat, n: nat, p: nat): (r: Bytes)
    requires p <= n
    ensures |r| == n
  {
    StoreLe(a, n)[..p] + StoreLe(b, n)[p..]
  }

  /** The mask arithmetic computes what a write cut after p bytes leaves. */
  lemma {:induction false} BlendIsTorn(prior: nat, target: nat, n: nat, p: nat)
    requires p <= n && prior < Limit(n) && target < Limit(n)
    ensures LoadLe(Torn64(target, prior, n, p)) == Blend(prior, target, p)
  {
    if p == 0 {
      assert Torn64(target, prior, n, 0) == StoreLe(prior, n);
      LoadStore(prior, n);
    } else {
      var t := Torn64(target, prior, n, p);
      assert t[1..] == Torn64(target / 256, prior / 256, n - 1, p - 1);
      BlendIsTorn(prior / 256, target / 256, n - 1, p - 1);
    }
  }

  /** Nothing the test accepts exceeds the target: rolling forward never shrinks
      a volume, and an intent older than the capacity it finds is refused. */
  lemma {:induction false} BlendAtMostTarget(prior: nat, target: nat, p: nat)
    requires prior <= target
    ensures Blend(prior, target, p) <= target
  {
    if p > 0 { BlendAtMostTarget(prior / 256, target / 256, p - 1); }
  }

  // ----- headers --------------------------------------------------------------------

  /** Two headers that differ in nothing parse reads but the capacity. */
  predicate SameButCapacity(a: Bytes, b: Bytes) {
    && |a| == |b| == SPACE && Parse(a).Some? && Parse(b).Some?
    && Parse(a).value.(virtualSize := 0) == Parse(b).value.(virtualSize := 0)
  }

  /** Every byte is one of a's or one of b's. */
  ghost predicate Mixed(x: Bytes, a: Bytes, b: Bytes) {
    |x| == |a| == |b| && forall i :: 0 <= i < |x| ==> x[i] == a[i] || x[i] == b[i]
  }

  lemma {:induction false} MixedSlice(x: Bytes, a: Bytes, b: Bytes, lo: nat, hi: nat)
    requires Mixed(x, a, b) && lo <= hi <= |x|
    ensures Mixed(x[lo..hi], a[lo..hi], b[lo..hi])
  {
  }

  lemma {:induction false} MixedNumber(x: Bytes, a: Bytes, b: Bytes)
    requires Mixed(x, a, b) && LoadLe(a) == LoadLe(b)
    ensures x == a
  {
    StoreLoad(a);
    StoreLoad(b);
  }

  lemma {:induction false} MixedString(x: Bytes, a: Bytes, b: Bytes)
    requires Mixed(x, a, b) && ReadStr(a) == ReadStr(b)
    ensures ReadStr(x) == ReadStr(a)
  {
    if |a| > 0 && a[0] != 0 {
      assert ReadStr(a)[0] == a[0] && ReadStr(a)[1..] == ReadStr(a[1..]);
      assert b[0] == a[0] && ReadStr(b)[1..] == ReadStr(b[1..]);
      MixedSlice(x, a, b, 1, |x|);
      assert x[1..|x|] == x[1..] && a[1..|x|] == a[1..] && b[1..|x|] == b[1..];
      MixedString(x[1..], a[1..], b[1..]);
    }
  }

  lemma {:induction false} MixedNumbers(x: Bytes, a: Bytes, b: Bytes)
    requires SameButCapacity(a, b) && Mixed(x, a, b)
    ensures x[..24] == a[..24] && x[24..28] == a[24..28] && x[28..32] == a[28..32] && x[32..40] == a[32..40]
    ensures x[40..48] == a[40..48] && x[130..132] == a[130..132] && x[132] == a[132] && x[133] == a[133]
  {
    MixedSlice(x, a, b, 0, 24);
    assert x[0..24] == x[..24] && a[0..24] == a[..24] == b[..24] == b[0..24];
    MixedSlice(x, a, b, 24, 28); MixedNumber(x[24..28], a[24..28], b[24..28]);
    MixedSlice(x, a, b, 28, 32); MixedNumber(x[28..32], a[28..32], b[28..32]);
    MixedSlice(x, a, b, 32, 40); MixedNumber(x[32..40], a[32..40], b[32..40]);
    MixedSlice(x, a, b, 40, 48); MixedNumber(x[40..48], a[40..48], b[40..48]);
    MixedSlice(x, a, b, 130, 132); MixedNumber(x[130..132], a[130..132], b[130..132]);
  }

  lemma {:induction false} MixedNames(x: Bytes, a: Bytes, b: Bytes)
    requires SameButCapacity(a, b) && Mixed(x, a, b)
    ensures ReadStr(x[56..93]) == ReadStr(a[56..93]) && ReadStr(x[93..130]) == ReadStr(a[93..130])
    ensures ReadStr(x[134..390]) == ReadStr(a[134..390])
  {
    MixedSlice(x, a, b, 56, 93); MixedString(x[56..93], a[56..93], b[56..93]);
    MixedSlice(x, a, b, 93, 130); MixedString(x[93..130], a[93..130], b[93..130]);
    MixedSlice(x, a, b, 134, 390); MixedString(x[134..390], a[134..390], b[134..390]);
  }

  /** However the bytes of two such headers are mixed, what is read differs from
      them in the capacity alone. */
  lemma {:induction false} MixedParses(x: Bytes, a: Bytes, b: Bytes)
    requires SameButCapacity(a, b) && Mixed(x, a, b)
    ensures |x| == SPACE && Parse(x) == Some(Parse(a).value.(virtualSize := LoadLe(x[48..56])))
  {
    MixedNumbers(x, a, b);
    MixedNames(x, a, b);
  }

  /** A rewrite of header b by header a that stopped after c bytes. */
  function Torn(a: Bytes, b: Bytes, c: nat): (r: Bytes)
    requires |a| == |b| == SPACE && c <= SPACE
    ensures |r| == SPACE
  {
    a[..c] + b[c..]
  }

  /** How many of the capacity's bytes it wrote. */
  function CapacityBytes(c: nat): (p: nat)
    ensures p <= 8
  {
    if c <= 48 then 0 else if c >= 56 then 8 else c - 48
  }

  lemma {:induction false} TornCapacity(a: Bytes, b: Bytes, c: nat)
    requires |a| == |b| == SPACE && c <= SPACE
    ensures Mixed(Torn(a, b, c), a, b)
    ensures var p := CapacityBytes(c); Torn(a, b, c)[48..56] == a[48..56][..p] + b[48..56][p..]
  {
    var p := CapacityBytes(c);
    var x, y := Torn(a, b, c)[48..56], a[48..56][..p] + b[48..56][p..];
    forall i | 0 <= i < 8
      ensures x[i] == y[i]
    {
      assert x[i] == if i < p then a[48 + i] else b[48 + i];
    }
  }

  /** A prefix of one capacity's bytes over the other's is the blend, and nothing
      else loads to it. */
  lemma {:induction false} LoadsBlend(x: Bytes, a: Bytes, b: Bytes, p: nat)
    requires |x| == |a| == |b| == 8 && p <= 8
    ensures LoadLe(x) == Blend(LoadLe(b), LoadLe(a), p) <==> x == a[..p] + b[p..]
  {
    Limits();
    StoreLoad(a);
    StoreLoad(b);
    BlendIsTorn(LoadLe(b), LoadLe(a), 8, p);
    StoreLoad(x);
    StoreLoad(a[..p] + b[p..]);
  }

  /** Wherever the rewrite stopped, the header is the target's with a blended
      capacity. */
  lemma {:induction false} TornIsBlend(a: Bytes, b: Bytes, c: nat)
    requires SameButCapacity(a, b) && c <= SPACE
    ensures var h := Parse(a).value;
      var v := Blend(Parse(b).value.virtualSize, h.virtualSize, CapacityBytes(c));
      Parse(Torn(a, b, c)) == Some(h.(virtualSize := v))
  {
    var t, p := Torn(a, b, c), CapacityBytes(c);
    TornCapacity(a, b, c);
    MixedParses(t, a, b);
    LoadsBlend(t[48..56], a[48..56], b[48..56], p);
  }

  /** What recovery asks of one live header. */
  ghost predicate HeaderAccepted(current: Bytes, prior: nat, wanted: Header) {
    && |current| == SPACE && Parse(current).Some?
    && (exists p: nat :: p <= 8 && Parse(current).value.virtualSize == Blend(prior, wanted.virtualSize, p))
    && Parse(current).value.(virtualSize := wanted.virtualSize) == wanted
  }

  /** The capacity's bytes are a prefix of a's over b's. */
  predicate PrefixOver(x: Bytes, a: Bytes, b: Bytes, p: nat)
    requires |x| == |a| == |b| == 8
  {
    p <= 8 && x == a[..p] + b[p..]
  }

  /** Of all headers a rewrite can leave, byte by byte old or new, exactly those
      whose capacity was written in order are accepted. */
  lemma {:induction false} AcceptedExactly(x: Bytes, a: Bytes, b: Bytes)
    requires SameButCapacity(a, b) && Mixed(x, a, b)
    ensures HeaderAccepted(x, Parse(b).value.virtualSize, Parse(a).value)
            <==> exists p: nat :: PrefixOver(x[48..56], a[48..56], b[48..56], p)
  {
    var prior, wanted := Parse(b).value.virtualSize, Parse(a).value;
    MixedParses(x, a, b);
    forall p: nat | p <= 8
      ensures Parse(x).value.virtualSize == Blend(prior, wanted.virtualSize, p)
              <==> PrefixOver(x[48..56], a[48..56], b[48..56], p)
    {
      LoadsBlend(x[48..56], a[48..56], b[48..56], p);
    }
    if exists p: nat :: PrefixOver(x[48..56], a[48..56], b[48..56], p) {
      var p: nat :| PrefixOver(x[48..56], a[48..56], b[48..56], p);
      assert p <= 8 && Parse(x).value.virtualSize == Blend(prior, wanted.virtualSize, p);
    }
  }

  /** Every header stopped part way is accepted, */
  lemma {:induction false} TornAccepted(a: Bytes, b: Bytes, c: nat)
    requires SameButCapacity(a, b) && c <= SPACE
    ensures HeaderAccepted(Torn(a, b, c), Parse(b).value.virtualSize, Parse(a).value)
  {
    var t := Torn(a, b, c);
    TornCapacity(a, b, c);
    AcceptedExactly(t, a, b);
    assert PrefixOver(t[48..56], a[48..56], b[48..56], CapacityBytes(c));
  }

  /** and of two headers as this program writes them no other mixture is. */
  lemma {:induction false} AcceptedIsTorn(x: Bytes, h: Header, prior: nat)
    requires Storable(h) && prior < TWO_64 && Mixed(x, Serialize(h), Serialize(h.(virtualSize := prior)))
    ensures HeaderAccepted(x, prior, h)
            <==> exists c: nat :: c <= SPACE && x == Torn(Serialize(h), Serialize(h.(virtualSize := prior)), c)
  {
    var a, b := Serialize(h), Serialize(h.(virtualSize := prior));
    Serialized(h, prior);
    if HeaderAccepted(x, prior, h) {
      AcceptedExactly(x, a, b);
      var p: nat :| PrefixOver(x[48..56], a[48..56], b[48..56], p);
      OnlyCapacityDiffers(h, prior);
      InOrder(x, a, b, p);
    }
    if exists c: nat :: c <= SPACE && x == Torn(a, b, c) {
      var c: nat :| c <= SPACE && x == Torn(a, b, c);
      TornAccepted(a, b, c);
    }
  }

  lemma {:induction false} OnlyCapacityDiffers(h: Header, prior: nat)
    requires Storable(h) && prior < TWO_64
    ensures var a, b := Serialize(h), Serialize(h.(virtualSize := prior)); a[..48] == b[..48] && a[56..] == b[56..]
  {
    var g := h.(virtualSize := prior);
    var a, b := Serialize(h), Serialize(g);
    assert Numbers(h)[..48] == Numbers(g)[..48];
    assert a[..48] == Numbers(h)[..48] && b[..48] == Numbers(g)[..48];
    assert a[56..] == Names(h) + ZeroBytes(SPACE - HEADER_SIZE) && b[56..] == Names(g) + ZeroBytes(SPACE - HEADER_SIZE);
  }

  lemma {:induction false} InOrder(x: Bytes, a: Bytes, b: Bytes, p: nat)
    requires |a| == SPACE && Mixed(x, a, b) && a[..48] == b[..48] && a[56..] == b[56..]
    requires PrefixOver(x[48..56], a[48..56], b[48..56], p)
    ensures x == Torn(a, b, 48 + p)
  {
    var t := Torn(a, b, 48 + p);
    assert forall i :: 0 <= i < 48 ==> a[..48][i] == b[..48][i];
    assert forall i :: 0 <= i < SPACE - 56 ==> a[56..][i] == b[56..][i];
    forall i | 0 <= i < SPACE
      ensures x[i] == t[i]
    {
      if 48 <= i < 56 { assert x[i] == x[48..56][i - 48]; }
      if 56 <= i { assert a[i] == a[56..][i - 56] && b[i] == b[56..][i - 56]; }
    }
  }

  /** A later byte of the new capacity in place and an earlier one not: refused. */
  lemma {:induction false} OutOfOrderTear(x: Bytes, a: Bytes, b: Bytes, i: nat, j: nat)
    requires SameButCapacity(a, b) && Mixed(x, a, b) && 48 <= i < j < 56
    requires x[i] != a[i] && x[j] != b[j]
    ensures !HeaderAccepted(x, Parse(b).value.virtualSize, Parse(a).value)
  {
    AcceptedExactly(x, a, b);
    forall p: nat
      ensures !PrefixOver(x[48..56], a[48..56], b[48..56], p)
    {
      assert x[48..56][i - 48] == x[i] && x[48..56][j - 48] == x[j];
    }
  }

  /** Such a mixture exists: 512 grown to 66560 with only the third byte written. */
  lemma {:induction false} OutOfOrderExists(h: Header)
    requires Storable(h) && h.virtualSize == 0x1_0400
    ensures var a, b, x := Serialize(h), Serialize(h.(virtualSize := 0x200)), Serialize(h.(virtualSize := 0x1_0200));
      Mixed(x, a, b) && !HeaderAccepted(x, 0x200, h)
  {
    var g, k := h.(virtualSize := 0x200), h.(virtualSize := 0x1_0200);
    OnlyCapacityDiffers(h, 0x1_0200);
    CapacityAt(h, 0, 4, 1);
    CapacityAt(g, 0, 2, 0);
    CapacityAt(k, 0, 2, 1);
    OneByteOfThree(Serialize(k), Serialize(h), Serialize(g));
    Serialized(h, 0x200);
    OutOfOrderTear(Serialize(k), Serialize(h), Serialize(g), 49, 50);
  }

  lemma {:induction false} Serialized(h: Header, prior: nat)
    requires Storable(h) && prior < TWO_64
    ensures var a, b := Serialize(h), Serialize(h.(virtualSize := prior));
      SameButCapacity(a, b) && Parse(a) == Some(h) && Parse(b).value.virtualSize == prior
  {
    ParseSerialize(h);
    ParseSerialize(h.(virtualSize := prior));
  }

  lemma {:induction false} OneByteOfThree(x: Bytes, a: Bytes, b: Bytes)
    requires |x| == |a| == |b| == SPACE && x[..48] == a[..48] && x[56..] == a[56..]
    requires a[48..56] == [0, 4, 1, 0, 0, 0, 0, 0] && b[48..56] == [0, 2, 0, 0, 0, 0, 0, 0]
    requires x[48..56] == [0, 2, 1, 0, 0, 0, 0, 0]
    ensures Mixed(x, a, b) && x[49] != a[49] && x[50] != b[50]
  {
    assert x[49] == x[48..56][1] && a[49] == a[48..56][1] && x[50] == x[48..56][2] && b[50] == b[48..56][2];
    forall i | 0 <= i < SPACE
      ensures x[i] == a[i] || x[i] == b[i]
    {
      if i < 48 { assert a[..48][i] == x[..48][i]; }
      if 48 <= i < 56 { assert x[48..56][i - 48] == x[i] && a[48..56][i - 48] == a[i] && b[48..56][i - 48] == b[i]; }
      if 56 <= i { assert a[56..][i - 56] == x[56..][i - 56]; }
    }
  }

  lemma {:induction false} CapacityAt(h: Header, x: Byte, y: Byte, z: Byte)
    requires Storable(h) && h.virtualSize == x + 256 * (y + 256 * z)
    ensures Serialize(h)[48..56] == [x, y, z, 0, 0, 0, 0, 0]
  {
    StoreThree(x, y, z);
    assert Serialize(h)[48..56] == Numbers(h)[48..];
  }

  lemma {:induction false} StoreThree(x: Byte, y: Byte, z: Byte)
    ensures StoreLe(x + 256 * (y + 256 * z), 8) == [x, y, z, 0, 0, 0, 0, 0]
  {
    StoreStep(x, y + 256 * z, 7);
    StoreStep(y, z, 6);
    StoreStep(z, 0, 5);
    StoreStep(0, 0, 4);
    StoreStep(0, 0, 3);
    StoreStep(0, 0, 2);
    StoreStep(0, 0, 1);
    StoreStep(0, 0, 0);
    assert StoreLe(0, 0) == [];
  }

  /** Any capacity above the target is refused: an intent older than the capacity
      it finds does not shrink the volume. */
  lemma {:induction false} RefusedUnlessForward(current: Bytes, prior: nat, wanted: Header)
    requires HeaderAccepted(current, prior, wanted) && prior <= wanted.virtualSize
    ensures Parse(current).value.virtualSize <= wanted.virtualSize
  {
    var p: nat :| p <= 8 && Parse(current).value.virtualSize == Blend(prior, wanted.virtualSize, p);
    BlendAtMostTarget(prior, wanted.virtualSize, p);
  }

  lemma {:induction false} SerializeInjective(g: Header, h: Header)
    requires Storable(g) && Storable(h) && Serialize(g) == Serialize(h)
    ensures g == h
  {
    ParseSerialize(g);
    ParseSerialize(h);
  }

  /** The check of one live header; the parsed fields are compared re-encoded. */
  method CheckHeader(current: Bytes, prior: nat, wanted: Header) returns (ok: bool)
    requires |current| == SPACE && Storable(wanted)
    ensures ok <==> HeaderAccepted(current, prior, wanted)
  {
    var h := Parse(current);
    if h.None? { return false; }
    ok := CapacityMatches(h.value.virtualSize, prior, wanted.virtualSize);
    var normalized := h.value.(virtualSize := wanted.virtualSize);
    if !ok || !Storable(normalized) { return false; }
    ok := Serialize(normalized) == Serialize(wanted);
    if ok { SerializeInjective(normalized, wanted); }
  }

  // ----- recovery ---------------------------------------------------------------------

  /** A published grow intent: the old capacity and both headers it leads to. */
  datatype Intent = Intent(prior: nat, data: Bytes, index: Bytes)

  predicate Shaped(t: Intent) { |t.data| == |t.index| == SPACE }

  /** What the intent itself must say, for files of these lengths. */
  predicate IntentOk(t: Intent, dataBytes: nat, indexBytes: nat)
    requires Shaped(t)
  {
    && t.prior > 0 && t.prior % SECTOR == 0 && Parse(t.data).Some? && Parse(t.index).Some?
    && var d, x := Parse(t.data).value, Parse(t.index).value;
       && d.virtualSize > t.prior && Storable(d) && Storable(x)
       && PairOk(0, d, x, dataBytes / SECTOR * SECTOR, SPACE + 16 * CompleteRecords(indexBytes))
  }

  /** The pair on disk can be rolled forward. */
  ghost predicate Recovers(t: Intent, data: Bytes, index: Bytes)
    requires Shaped(t)
  {
    && |data| >= SPACE && |index| >= SPACE && IntentOk(t, |data|, |index|)
    && HeaderAccepted(data[..SPACE], t.prior, Parse(t.data).value)
    && HeaderAccepted(index[..SPACE], t.prior, Parse(t.index).value)
    && var log := CompleteLog(index);
       Replayable(log, Parse(t.data).value.virtualSize / SECTOR, |data| / SECTOR) && !Alias(LiveIndex(log))
  }

  /** recover_grow: rolls forward exactly when the intent is well formed, both live
      headers are accepted and the log replays at the target capacity; afterwards
      both headers are the intent's and nothing else changed. */
  method RecoverGrow(t: Intent, data: Bytes, index: Bytes) returns (r: Option<(Bytes, Bytes)>)
    requires Shaped(t)
    ensures r.Some? <==> Recovers(t, data, index)
    ensures r.Some? ==> r.value == (t.data + data[SPACE..], t.index + index[SPACE..])
  {
    if |data| < SPACE || |index| < SPACE || !IntentOk(t, |data|, |index|) { return None; }
    var d, x := Parse(t.data).value, Parse(t.index).value;
    var ok := CheckHeader(data[..SPACE], t.prior, d);
    if !ok { return None; }
    ok := CheckHeader(index[..SPACE], t.prior, x);
    if !ok { return None; }
    var live := ReplayLog(CompleteLog(index), d.virtualSize / SECTOR, |data| / SECTOR);
    if live.None? { return None; }
    r := Some((t.data + data[SPACE..], t.index + index[SPACE..]));
  }

  /** A pair with such a tear in its data header is not rolled forward, whatever
      the rest of it holds. */
  lemma {:induction false} OutOfOrderRefused(t: Intent, before: Bytes, data: Bytes, index: Bytes, i: nat, j: nat)
    requires Shaped(t) && |data| >= SPACE && SameButCapacity(t.data, before)
    requires Parse(before).value.virtualSize == t.prior
    requires Mixed(data[..SPACE], t.data, before) && 48 <= i < j < 56 && data[i] != t.data[i] && data[j] != before[j]
    ensures !Recovers(t, data, index)
  {
    OutOfOrderTear(data[..SPACE], t.data, before, i, j);
  }

  /** Recovery may itself stop and start again: a forward rewrite over a torn
      header, stopped anywhere, leaves a torn header again. */
  lemma {:induction false} TornAgain(a: Bytes, b: Bytes, c: nat, d: nat)
    requires |a| == |b| == SPACE && c <= SPACE && d <= SPACE
    ensures Torn(a, Torn(a, b, c), d) == Torn(a, b, if c < d then d else c)
  {
  }

  // ----- whole transactions --------------------------------------------------------------

  /** A pair of files. */
  datatype Files = Files(data: Bytes, index: Bytes)

  /** The pair an open has accepted. */
  ghost predicate Opened(f: Files) {
    && |f.data| >= SPACE && |f.index| >= SPACE && Parse(f.data[..SPACE]).Some? && Parse(f.index[..SPACE]).Some?
    && var d, x := Parse(f.data[..SPACE]).value, Parse(f.index[..SPACE]).value;
       && Storable(d) && Storable(x) && PairOk(0, d, x, |f.data|, SPACE + 16 * CompleteRecords(|f.index|))
       && var log := CompleteLog(f.index);
          Replayable(log, d.virtualSize / SECTOR, |f.data| / SECTOR) && !Alias(LiveIndex(log))
  }

  /** The intent grow publishes. */
  function GrowRecord(f: Files, size: nat): (t: Intent)
    requires |f.data| >= SPACE && |f.index| >= SPACE && Parse(f.data[..SPACE]).Some? && Parse(f.index[..SPACE]).Some?
    requires Storable(Parse(f.data[..SPACE]).value) && Storable(Parse(f.index[..SPACE]).value) && CapacityOk(size)
    ensures Shaped(t)
  {
    var d, x := Parse(f.data[..SPACE]).value, Parse(f.index[..SPACE]).value;
    CapacityFits(size);
    Intent(d.virtualSize, Serialize(d.(virtualSize := size)), Serialize(x.(virtualSize := size)))
  }

  /** One attempt that stopped somewhere in either header. A power loss may also
      take back what an earlier attempt wrote and did not sync. */
  ghost predicate Attempt(t: Intent, first: Files, before: Files, after: Files)
    requires Shaped(t) && |first.data| >= SPACE && |first.index| >= SPACE
  {
    Rewritten(t.data, first.data, before.data, after.data) && Rewritten(t.index, first.index, before.index, after.index)
  }

  ghost predicate Rewritten(header: Bytes, first: Bytes, before: Bytes, after: Bytes)
    requires |header| == SPACE && |first| >= SPACE
  {
    && |before| >= SPACE
    && exists c: nat :: c <= SPACE && (StoppedAt(header, before, after, c) || StoppedAt(header, first, after, c))
  }

  predicate StoppedAt(header: Bytes, before: Bytes, after: Bytes, c: nat)
    requires |header| == SPACE <= |before| && c <= SPACE
  {
    after == Torn(header, before[..SPACE], c) + before[SPACE..]
  }

  /** A file of the pair while the transaction is under way. */
  ghost predicate UnderWay(header: Bytes, first: Bytes, now: Bytes)
    requires |header| == SPACE && |first| >= SPACE
  {
    exists c: nat :: c <= SPACE && StoppedAt(header, first, now, c)
  }

  lemma {:induction false} StaysUnderWay(header: Bytes, first: Bytes, before: Bytes, after: Bytes)
    requires |header| == SPACE && |first| >= SPACE && UnderWay(header, first, before)
    requires Rewritten(header, first, before, after)
    ensures UnderWay(header, first, after)
  {
    var c: nat :| c <= SPACE && StoppedAt(header, first, before, c);
    var d: nat :| d <= SPACE && (StoppedAt(header, before, after, d) || StoppedAt(header, first, after, d));
    if StoppedAt(header, before, after, d) {
      assert before[..SPACE] == Torn(header, first[..SPACE], c) && before[SPACE..] == first[SPACE..];
      TornAgain(header, first[..SPACE], c, d);
      assert StoppedAt(header, first, after, if c < d then d else c);
    }
  }

  lemma {:induction false} RunUnderWay(t: Intent, run: seq<Files>)
    requires Shaped(t) && |run| > 0 && |run[0].data| >= SPACE && |run[0].index| >= SPACE
    requires forall n :: 0 < n < |run| ==> Attempt(t, run[0], run[n - 1], run[n])
    ensures UnderWay(t.data, run[0].data, run[|run| - 1].data)
    ensures UnderWay(t.index, run[0].index, run[|run| - 1].index)
  {
    if |run| == 1 {
      assert StoppedAt(t.data, run[0].data, run[0].data, 0) && StoppedAt(t.index, run[0].index, run[0].index, 0);
    } else {
      RunUnderWay(t, run[..|run| - 1]);
      var a, b := run[|run| - 2], run[|run| - 1];
      assert Attempt(t, run[0], a, b);
      StaysUnderWay(t.data, run[0].data, a.data, b.data);
      StaysUnderWay(t.index, run[0].index, a.index, b.index);
    }
  }

  lemma {:induction false} UnderWayAccepted(header: Bytes, first: Bytes, now: Bytes)
    requires |first| >= SPACE && SameButCapacity(header, first[..SPACE]) && UnderWay(header, first, now)
    ensures |now| == |first| && now[SPACE..] == first[SPACE..]
    ensures HeaderAccepted(now[..SPACE], Parse(first[..SPACE]).value.virtualSize, Parse(header).value)
  {
    var c: nat :| c <= SPACE && StoppedAt(header, first, now, c);
    assert now[..SPACE] == Torn(header, first[..SPACE], c) && now[SPACE..] == first[SPACE..];
    TornAccepted(header, first[..SPACE], c);
  }

  lemma {:induction false} RecordHeaders(f: Files, size: nat)
    requires Opened(f) && CapacityOk(size) && size > Parse(f.data[..SPACE]).value.virtualSize
    ensures var t := GrowRecord(f, size);
      && SameButCapacity(t.data, f.data[..SPACE]) && SameButCapacity(t.index, f.index[..SPACE])
      && IntentOk(t, |f.data|, |f.index|) && Parse(t.data) == Some(Parse(f.data[..SPACE]).value.(virtualSize := size))
      && t.prior == Parse(f.data[..SPACE]).value.virtualSize == Parse(f.index[..SPACE]).value.virtualSize
  {
    CapacityFits(size);
    Resized(f.data[..SPACE], size);
    Resized(f.index[..SPACE], size);
    GrownPair(Parse(f.data[..SPACE]).value, Parse(f.index[..SPACE]).value, size,
              |f.data|, SPACE + 16 * CompleteRecords(|f.index|));
  }

  lemma {:induction false} GrownPair(d: Header, x: Header, size: nat, dataBytes: nat, indexBytes: nat)
    requires PairOk(0, d, x, dataBytes, indexBytes) && CapacityOk(size) && size > 0
    ensures PairOk(0, d.(virtualSize := size), x.(virtualSize := size), dataBytes / SECTOR * SECTOR, indexBytes)
    ensures d.virtualSize == x.virtualSize > 0 && d.virtualSize % SECTOR == 0
  {
    assert dataBytes / SECTOR * SECTOR == dataBytes;
  }

  lemma {:induction false} CapacityFits(size: nat)
    requires CapacityOk(size)
    ensures size < TWO_64
  {
  }

  lemma {:induction false} Resized(b: Bytes, size: nat)
    requires |b| == SPACE && Parse(b).Some? && Storable(Parse(b).value) && size < TWO_64
    ensures var h := Parse(b).value.(virtualSize := size);
      Storable(h) && Parse(Serialize(h)) == Some(h) && SameButCapacity(Serialize(h), b)
  {
    ParseSerialize(Parse(b).value.(virtualSize := size));
  }

  lemma {:induction false} ReplaysLarger(log: seq<Mapping>, sectors: nat, more: nat, size: nat)
    requires Replayable(log, sectors, size) && sectors <= more
    ensures Replayable(log, more, size)
  {
  }

  /** Growing, however often it is interrupted, is always rolled forward, and to
      the same pair: both headers at the new capacity, payload and log untouched,
      and the result opens. */
  lemma {:induction false} GrowTransaction(first: Files, size: nat, run: seq<Files>)
    requires Opened(first) && CapacityOk(size) && size > Parse(first.data[..SPACE]).value.virtualSize
    requires |run| > 0 && run[0] == first
    requires forall n :: 0 < n < |run| ==> Attempt(GrowRecord(first, size), first, run[n - 1], run[n])
    ensures var t, last := GrowRecord(first, size), run[|run| - 1];
      && Recovers(t, last.data, last.index)
      && last.data[SPACE..] == first.data[SPACE..] && last.index[SPACE..] == first.index[SPACE..]
      && Opened(Files(t.data + first.data[SPACE..], t.index + first.index[SPACE..]))
      && Parse(t.data) == Some(Parse(first.data[..SPACE]).value.(virtualSize := size))
  {
    var t, last := GrowRecord(first, size), run[|run| - 1];
    RecordHeaders(first, size);
    RunUnderWay(t, run);
    UnderWayAccepted(t.data, first.data, last.data);
    UnderWayAccepted(t.index, first.index, last.index);
    GrownLog(t, first, last);
    GrownOpens(t, first);
  }

  lemma {:induction false} SameLog(a: Bytes, b: Bytes)
    requires |a| == |b| >= SPACE && a[SPACE..] == b[SPACE..]
    ensures CompleteLog(a) == CompleteLog(b)
  {
    var n := 16 * CompleteRecords(|a|);
    assert a[SPACE..SPACE + n] == a[SPACE..][..n] && b[SPACE..SPACE + n] == b[SPACE..][..n];
  }

  lemma {:induction false} GrownLog(t: Intent, first: Files, last: Files)
    requires Opened(first) && Shaped(t) && IntentOk(t, |first.data|, |first.index|)
    requires t.prior == Parse(first.data[..SPACE]).value.virtualSize
    requires |last.data| == |first.data| && |last.index| == |first.index| && last.index[SPACE..] == first.index[SPACE..]
    ensures var log := CompleteLog(last.index);
      Replayable(log, Parse(t.data).value.virtualSize / SECTOR, |last.data| / SECTOR) && !Alias(LiveIndex(log))
  {
    SameLog(first.index, last.index);
    ReplaysLarger(CompleteLog(first.index), t.prior / SECTOR,
                  Parse(t.data).value.virtualSize / SECTOR, |first.data| / SECTOR);
  }

  lemma {:induction false} GrownOpens(t: Intent, first: Files)
    requires Opened(first) && Shaped(t) && IntentOk(t, |first.data|, |first.index|)
    requires t.prior == Parse(first.data[..SPACE]).value.virtualSize
    ensures Opened(Files(t.data + first.data[SPACE..], t.index + first.index[SPACE..]))
  {
    var g := Files(t.data + first.data[SPACE..], t.index + first.index[SPACE..]);
    assert g.data[..SPACE] == t.data && g.index[..SPACE] == t.index && g.index[SPACE..] == first.index[SPACE..];
    GrownLog(t, first, g);
  }

  /** The log of the smaller volume replays in the grown one, cut anywhere. */
  lemma {:induction false} GrownLogReplays(log: seq<Mapping>, n: nat, since: nat, sectors: nat, target: nat, size: nat)
    requires Journal(log, since, sectors, size) && since <= n <= |log| && sectors <= target
    ensures Replayable(log[..n], target, size) && !Alias(LiveIndex(log[..n]))
  {
    JournalMore(log, since, sectors, size, target, size);
    CutReplays(log, n, since, target, size);
  }
}
