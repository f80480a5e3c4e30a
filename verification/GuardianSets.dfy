/** The core contract's stored guardian sets: which are installed, which have expired, and what keeps that so. */
module GuardianSets {
  import opened Bytes
  import opened Cryptography
  import opened Guardians
  import opened LocalBlob
  import opened Replay
  import opened TmplSig
  import opened Transactions
  import opened Vaa

  /** Address of the blob of guardian set `i`. */
  function SetAddress(c: Crypto, app: App, i: nat): bytes
    requires ValidApp(app)
  {
    SigAddress(c, app, i, GUARDIAN)
  }

  /** The expiry field; keys stay below it as long as there are at most 49. */
  const EXPIRY: nat := 1000
  const MAX_SET: nat := 49
  const DAY: nat := 86400

  /** The time at which verifyVAA stops accepting the set; zero is never. */
  ghost function Expiry(f: bytes): nat
    requires |f| == MAX_BYTES
  {
    ToInt(f[EXPIRY..EXPIRY + 8])
  }

  /** A guardian set as it is stored: the count, and that many keys. At most 95 fit into a blob. */
  predicate KeyBlob(b: bytes)
  {
    0 < |b| < MAX_BYTES && b[0] > 0 && |b| == 1 + 20 * (b[0] as int)
  }

  /** What the blob of an accepted set looks like: the set, zeros, and once it is superseded its expiry over that. */
  ghost function Image(b: bytes, end: Option<nat>): (f: bytes)
    requires KeyBlob(b)
    ensures |f| == MAX_BYTES
  {
    var f := b + Zeros(MAX_BYTES - |b|);
    if end == None then f else Splice(f, EXPIRY, FromInt(end.value, 8))
  }

  /** The accepted sets, from `first` up to but not including `next`, and when the superseded ones end. */
  datatype Record = Record(first: nat, next: nat, sets: map<nat, bytes>, ends: map<nat, nat>)

  ghost function End(r: Record, i: nat): Option<nat>
  {
    if i in r.ends then Some(r.ends[i]) else None
  }

  /**
   * The last accepted set is current, all others have an end. Exactly the blobs of the accepted sets are tagged,
   * and each is the image of what was accepted; blobs of other sets are blank.
   */
  ghost predicate Rotation(c: Crypto, app: App, local: map<bytes, Local>, r: Record)
    requires ValidApp(app) && AllWellFormed(local)
  {
    && r.first <= r.next
    && (forall i: nat :: i in r.sets <==> r.first <= i < r.next)
    && (forall i: nat :: i in r.ends <==> r.first <= i && i + 1 < r.next)
    && (forall i: nat :: i in r.ends ==> 0 < r.ends[i] < U64)
    && (forall i: nat :: i in r.sets ==> Installed(c, app, local, r.sets[i], End(r, i), i))
    && (forall a :: a in local && local[a].meta == Some(GUARDIAN) ==> Tagged(c, app, r.first, r.next, a))
    && (forall i: nat :: i < r.first || r.next <= i ==> Blank(c, app, local, i))
  }

  ghost predicate Installed(c: Crypto, app: App, local: map<bytes, Local>, blob: bytes, end: Option<nat>, i: nat)
    requires ValidApp(app) && AllWellFormed(local)
  {
    var a := SetAddress(c, app, i);
    && KeyBlob(blob) && a in local && local[a].meta == Some(GUARDIAN) && Flat(local[a]) == Image(blob, end)
  }

  ghost predicate Tagged(c: Crypto, app: App, first: nat, next: nat, a: bytes)
    requires ValidApp(app)
  {
    exists i :: first <= i < next && a == SetAddress(c, app, i)
  }

  ghost predicate Blank(c: Crypto, app: App, local: map<bytes, Local>, i: nat)
    requires ValidApp(app) && AllWellFormed(local)
  {
    var a := SetAddress(c, app, i);
    a in local ==> Flat(local[a]) == Zeros(MAX_BYTES)
  }

  /** The account is not the blob of any guardian set. */
  ghost predicate NoSet(c: Crypto, app: App, a: bytes)
    requires ValidApp(app)
  {
    forall i: nat :: SetAddress(c, app, i) != a
  }

  lemma OtherThanSet(c: Crypto, app: App, index: nat, emitter: bytes)
    requires ValidApp(app) && CollisionFree(c) && |emitter| != 8
    ensures NoSet(c, app, SigAddress(c, app, index, emitter))
  {
    forall i: nat
      ensures SetAddress(c, app, i) != SigAddress(c, app, index, emitter)
    {
      SlotsDoNotAlias(c, app, i, GUARDIAN, index, emitter);
    }
  }

  /** Writes to other slots, and opting in with zeros, keep the rotation. */
  lemma RotationKept(c: Crypto, app: App, local: map<bytes, Local>, a: bytes, l: Local, r: Record)
    requires ValidApp(app) && AllWellFormed(local) && WellFormed(l) && Rotation(c, app, local, r)
    requires l.meta != Some(GUARDIAN)
    requires NoSet(c, app, a) || (a !in local && Flat(l) == Zeros(MAX_BYTES))
    ensures Rotation(c, app, local[a := l], r)
  {
    hide SigAddress, Image, KeyBlob, End;
    var m := local[a := l];
    forall i: nat | i in r.sets
      ensures Installed(c, app, m, r.sets[i], End(r, i), i)
    {
      assert Installed(c, app, local, r.sets[i], End(r, i), i);
    }
    forall i: nat | i < r.first || r.next <= i
      ensures Blank(c, app, m, i)
    {
      assert Blank(c, app, local, i);
    }
  }

  // ---- Images ----

  lemma ZeroIsZero(n: nat)
    ensures ToInt(Zeros(n)) == 0
  {
    ToIntPadded(n, []);
    assert Zeros(n) + [] == Zeros(n);
  }

  lemma ZeroOnly(b: bytes)
    requires |b| == 8
    ensures ToInt(b) == 0 <==> forall i :: 0 <= i < 8 ==> b[i] == 0
  {
    ZeroIsZero(8);
    Fits(b, 8);
    Fits(Zeros(8), 8);
    assert (forall i :: 0 <= i < 8 ==> b[i] == 0) <==> b == Zeros(8);
  }

  /** A set written into a blank blob makes the image of a current set. */
  lemma FreshImage(f: bytes, b: bytes)
    requires KeyBlob(b) && f == Zeros(MAX_BYTES)
    ensures Splice(f, 0, b) == Image(b, None)
  {
    assert f[|b|..] == Zeros(MAX_BYTES - |b|);
  }

  /** The current set is stored as it was accepted, whatever its size; with at most 49 keys it stays so for good. */
  lemma ImageHolds(b: bytes, end: Option<nat>)
    requires KeyBlob(b)
    ensures Image(b, end)[0] == b[0] && 1 + 20 * (b[0] as int) < MAX_BYTES
    ensures end == None || |b| <= EXPIRY ==> Image(b, end)[..|b|] == b && Image(b, end)[1..|b|] == b[1..]
  {
    hide FromInt;
    var f := b + Zeros(MAX_BYTES - |b|);
    assert f[..|b|] == b;
    if end.Some? && |b| <= EXPIRY {
      SpliceSlice(f, EXPIRY, FromInt(end.value, 8), 0, |b|);
    }
    if end == None || |b| <= EXPIRY {
      SubSlice(Image(b, end), 0, |b|, 1, |b|);
    }
  }

  /** A current set carries no expiry exactly when none of its bytes at 1000 to 1007 is set. */
  lemma FreshExpiry(b: bytes)
    requires KeyBlob(b)
    ensures Expiry(Image(b, None)) == 0 <==> forall i :: EXPIRY <= i < EXPIRY + 8 && i < |b| ==> b[i] == 0
  {
    hide KeyBlob, ToInt;
    var field := Image(b, None)[EXPIRY..EXPIRY + 8];
    forall i | 0 <= i < 8
      ensures field[i] == if EXPIRY + i < |b| then b[EXPIRY + i] else 0
    {
      assert field[i] == Image(b, None)[EXPIRY + i];
    }
    ZeroOnly(field);
    forall i | EXPIRY <= i < EXPIRY + 8 && i < |b|
      ensures field[i - EXPIRY] == b[i]
    {
    }
  }

  /** Up to 49 keys end before the expiry field. The last byte of a fiftieth key is its first byte. */
  lemma FiftyKeysExpire(keys: seq<Bytes20>)
    requires 1 <= |keys| <= 50 && KeyBlob([|keys|] + KeyBytes(keys))
    ensures Expiry(Image([|keys|] + KeyBytes(keys), None)) != 0 <==> |keys| == 50 && keys[49][19] != 0
  {
    hide KeyBytes, Expiry, Image;
    var stored, n := KeyBytes(keys), |keys|;
    var body := [n] + stored;
    FreshExpiry(body);
    assert |body| == 1 + 20 * n;
    if n == 50 {
      KeyBytesAt(keys, 49);
      assert body[EXPIRY] == stored[999] == stored[20 * 49..20 * 49 + 20][19];
    }
  }

  /** A superseded set carries its end. */
  lemma StampedExpiry(b: bytes, end: nat)
    requires KeyBlob(b) && end < U64
    ensures Expiry(Image(b, Some(end))) == end
  {
    hide FromInt, ToInt;
    SpliceSlice(b + Zeros(MAX_BYTES - |b|), EXPIRY, FromInt(end, 8), EXPIRY, EXPIRY + 8);
    assert FromInt(end, 8)[0..8] == FromInt(end, 8);
    Reads(end, 8);
  }

  // ---- What moves the rotation on ----

  /** Boot: the first set goes into its own blank blob and nothing expires. */
  lemma FirstInstalled(c: Crypto, app: App, local: map<bytes, Local>, index: nat, l: Local, blob: bytes)
    requires ValidApp(app) && CollisionFree(c) && AllWellFormed(local) && WellFormed(l)
    requires Rotation(c, app, local, Record(0, 0, map[], map[]))
    requires KeyBlob(blob) && l.meta == Some(GUARDIAN) && Flat(l) == Image(blob, None)
    ensures Rotation(c, app, local[SetAddress(c, app, index) := l], Record(index, index + 1, map[index := blob], map[]))
  {
    hide SigAddress, CollisionFree, Image, KeyBlob;
    var a, end := SetAddress(c, app, index), index + 1;
    var m := local[a := l];
    assert Installed(c, app, m, blob, None, index);
    forall b | b in m && m[b].meta == Some(GUARDIAN)
      ensures Tagged(c, app, index, end, b)
    {
      assert b != a ==> Tagged(c, app, 0, 0, b);
    }
    forall i: nat | i < index || end <= i
      ensures Blank(c, app, m, i)
    {
      SlotsDoNotAlias(c, app, i, GUARDIAN, index, GUARDIAN);
      assert Blank(c, app, local, i);
    }
  }

  /** Only the blobs `a` and `o` changed: `a` is the image of a new set, `o` that of a set which ends. */
  ghost predicate Updated(local: map<bytes, Local>, m: map<bytes, Local>, a: bytes, blob: bytes,
                          o: bytes, older: bytes, end: nat)
    requires AllWellFormed(m)
  {
    && KeyBlob(blob) && KeyBlob(older)
    && a in m && m[a].meta == Some(GUARDIAN) && Flat(m[a]) == Image(blob, None)
    && o in m && m[o].meta == Some(GUARDIAN) && Flat(m[o]) == Image(older, Some(end))
    && forall x :: x != a && x != o ==> (x in m <==> x in local) && (x in m ==> m[x] == local[x])
  }

  /** The record after an update. */
  ghost function Superseded(r: Record, blob: bytes, end: nat): Record
    requires 0 < r.next
  {
    Record(r.first, r.next + 1, r.sets[r.next := blob], r.ends[r.next - 1 := end])
  }

  lemma StillInstalled(c: Crypto, app: App, local: map<bytes, Local>, m: map<bytes, Local>, r: Record,
                       blob: bytes, end: nat, i: nat)
    requires ValidApp(app) && CollisionFree(c) && AllWellFormed(local) && AllWellFormed(m)
    requires 0 < r.next && r.next - 1 in r.sets && r.next !in r.ends && i in Superseded(r, blob, end).sets
    requires Updated(local, m, SetAddress(c, app, r.next), blob, SetAddress(c, app, r.next - 1), r.sets[r.next - 1],
                     end)
    requires i != r.next ==> Installed(c, app, local, r.sets[i], End(r, i), i)
    ensures var s := Superseded(r, blob, end); Installed(c, app, m, s.sets[i], End(s, i), i)
  {
    hide SigAddress, CollisionFree, Image, KeyBlob;
    SlotsDoNotAlias(c, app, i, GUARDIAN, r.next, GUARDIAN);
    SlotsDoNotAlias(c, app, i, GUARDIAN, r.next - 1, GUARDIAN);
  }

  lemma StillBlank(c: Crypto, app: App, local: map<bytes, Local>, m: map<bytes, Local>, next: nat, blob: bytes,
                   older: bytes, end: nat, i: nat)
    requires ValidApp(app) && CollisionFree(c) && AllWellFormed(local) && AllWellFormed(m) && 0 < next
    requires Updated(local, m, SetAddress(c, app, next), blob, SetAddress(c, app, next - 1), older, end)
    requires i != next && i != next - 1 && Blank(c, app, local, i)
    ensures Blank(c, app, m, i)
  {
    hide SigAddress, CollisionFree, Image, KeyBlob;
    SlotsDoNotAlias(c, app, i, GUARDIAN, next, GUARDIAN);
    SlotsDoNotAlias(c, app, i, GUARDIAN, next - 1, GUARDIAN);
  }

  /** An update: set `next` is installed, the one before it gets its end, and all others stay as they are. */
  lemma NextInstalled(c: Crypto, app: App, local: map<bytes, Local>, m: map<bytes, Local>, r: Record, blob: bytes,
                      end: nat)
    requires ValidApp(app) && CollisionFree(c) && AllWellFormed(local) && AllWellFormed(m)
    requires r.first < r.next && Rotation(c, app, local, r) && 0 < end < U64
    requires Updated(local, m, SetAddress(c, app, r.next), blob, SetAddress(c, app, r.next - 1), r.sets[r.next - 1],
                     end)
    ensures Rotation(c, app, m, Superseded(r, blob, end))
  {
    hide SigAddress, CollisionFree, Updated, Installed, Blank, Tagged;
    var s := Superseded(r, blob, end);
    forall i: nat | i in s.sets
      ensures Installed(c, app, m, s.sets[i], End(s, i), i)
    {
      StillInstalled(c, app, local, m, r, blob, end, i);
    }
    forall i: nat | i < s.first || s.next <= i
      ensures Blank(c, app, m, i)
    {
      StillBlank(c, app, local, m, r.next, blob, r.sets[r.next - 1], end, i);
    }
    forall x | x in m && m[x].meta == Some(GUARDIAN)
      ensures Tagged(c, app, s.first, s.next, x)
    {
      NextTagged(c, app, local, m, r, blob, end, x);
    }
  }

  lemma NextTagged(c: Crypto, app: App, local: map<bytes, Local>, m: map<bytes, Local>, r: Record,
                   blob: bytes, end: nat, x: bytes)
    requires ValidApp(app) && AllWellFormed(local) && AllWellFormed(m)
    requires r.first < r.next && Rotation(c, app, local, r)
    requires Updated(local, m, SetAddress(c, app, r.next), blob, SetAddress(c, app, r.next - 1), r.sets[r.next - 1],
                     end)
    requires x in m && m[x].meta == Some(GUARDIAN)
    ensures Tagged(c, app, r.first, r.next + 1, x)
  {
    hide SigAddress, Installed, Blank, Image;
    if x != SetAddress(c, app, r.next) && x != SetAddress(c, app, r.next - 1) {
      assert Tagged(c, app, r.first, r.next, x);
      var i :| r.first <= i < r.next && x == SetAddress(c, app, i);
    }
  }

  /** The current set is installed without an end, the next one blank. */
  lemma EndsOfRotation(c: Crypto, app: App, local: map<bytes, Local>, r: Record)
    requires ValidApp(app) && AllWellFormed(local) && r.first < r.next && Rotation(c, app, local, r)
    ensures r.next - 1 in r.sets && Installed(c, app, local, r.sets[r.next - 1], None, r.next - 1)
    ensures Blank(c, app, local, r.next)
  {
    hide Installed, Blank;
    assert End(r, r.next - 1) == None;
  }

  /** A set's blob is tagged exactly when the set is installed. */
  lemma TaggedIndex(c: Crypto, app: App, local: map<bytes, Local>, r: Record, i: nat)
    requires ValidApp(app) && CollisionFree(c) && AllWellFormed(local) && Rotation(c, app, local, r)
    requires SetAddress(c, app, i) in local
    ensures local[SetAddress(c, app, i)].meta == Some(GUARDIAN) <==> r.first <= i < r.next
    ensures i in r.sets ==> Installed(c, app, local, r.sets[i], End(r, i), i)
  {
    hide Image, KeyBlob;
    var a := SetAddress(c, app, i);
    if local[a].meta == Some(GUARDIAN) {
      assert Tagged(c, app, r.first, r.next, a);
      var k :| r.first <= k < r.next && a == SetAddress(c, app, k);
      SlotsDoNotAlias(c, app, i, GUARDIAN, k, GUARDIAN);
    }
    assert i in r.sets ==> Installed(c, app, local, r.sets[i], End(r, i), i);
  }
}
