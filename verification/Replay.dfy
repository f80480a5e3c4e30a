/** Replay protection: one bit per (emitter, sequence), in blobs of 15240 bits. Used by both contracts. */
module Replay {
  import opened Bytes
  import opened Cryptography
  import opened Guardians
  import opened LocalBlob
  import opened TmplSig
  import opened Transactions
  import opened Vaa

  const MAX_BITS: nat := 15240

  /** Emitter chain and address (34 bytes) with the sequence number. */
  type Message = (bytes, nat)

  ghost predicate Messages(m: Message)
  {
    |m.0| == 34 && m.1 < U64
  }

  /** Address of the blob that holds the message's bit. */
  ghost function BitmapOf(c: Crypto, app: App, m: Message): bytes
    requires ValidApp(app)
  {
    SigAddress(c, app, m.1 / MAX_BITS, m.0)
  }

  /** The message's bit in a blob. */
  ghost predicate BitIn(f: bytes, sequence: nat)
    requires |f| == MAX_BYTES
  {
    GetBit(f[sequence / 8 % MAX_BYTES], sequence % 8)
  }

  ghost predicate BitSet(c: Crypto, app: App, local: map<bytes, Local>, m: Message)
    requires ValidApp(app) && AllWellFormed(local)
  {
    var a := BitmapOf(c, app, m);
    a in local && BitIn(Flat(local[a]), m.1)
  }

  /** The stored bitmaps are exactly the set of consumed messages. */
  ghost predicate Bitmaps(c: Crypto, app: App, local: map<bytes, Local>, consumed: set<Message>)
    requires ValidApp(app) && AllWellFormed(local)
  {
    && (forall m :: m in consumed ==> Messages(m))
    && (forall m: Message :: Messages(m) ==> (m in consumed <==> BitSet(c, app, local, m)))
  }

  /** No message twice. */
  ghost predicate Distinct(log: seq<Message>)
  {
    forall i, j :: 0 <= i < j < |log| ==> log[i] != log[j]
  }

  ghost function Consumed(log: seq<Message>): set<Message>
  {
    set m | m in log
  }

  lemma LogGrows(log: seq<Message>, m: Message)
    requires Distinct(log) && m !in log
    ensures Distinct(log + [m]) && Consumed(log + [m]) == Consumed(log) + {m}
  {
  }

  // ---- Accepted calls and their messages ----

  /** The messages of the accepted parts among the first `n`, in order. */
  function Kept(parts: seq<seq<Message>>, accepted: seq<bool>, n: nat): seq<Message>
    requires n <= |parts| && n <= |accepted|
  {
    if n == 0 then [] else Kept(parts, accepted, n - 1) + if accepted[n - 1] then parts[n - 1] else []
  }

  lemma {:induction false} KeptSame(parts: seq<seq<Message>>, x: seq<bool>, y: seq<bool>, n: nat)
    requires n <= |parts| && n <= |x| && n <= |y| && forall i :: 0 <= i < n ==> x[i] == y[i]
    ensures Kept(parts, x, n) == Kept(parts, y, n)
  {
    if n > 0 {
      KeptSame(parts, x, y, n - 1);
    }
  }

  lemma {:induction false} InKept(parts: seq<seq<Message>>, accepted: seq<bool>, n: nat, k: nat, m: Message)
    requires k < n <= |parts| && n <= |accepted| && accepted[k] && m in parts[k]
    ensures m in Kept(parts, accepted, n)
  {
    if k < n - 1 {
      InKept(parts, accepted, n - 1, k, m);
    }
  }

  lemma DistinctParts(x: seq<Message>, y: seq<Message>)
    requires Distinct(x + y)
    ensures Distinct(x) && Distinct(y) && forall m :: m in x ==> m !in y
  {
    var z := x + y;
    forall i | 0 <= i < |x|
      ensures z[i] == x[i]
    {
    }
    forall i, j | 0 <= i < |x| && 0 <= j < |y|
      ensures x[i] != y[j]
    {
      assert z[i] == x[i] && z[|x| + j] == y[j];
    }
    forall i, j | 0 <= i < j < |y|
      ensures y[i] != y[j]
    {
      assert z[|x| + i] == y[i] && z[|x| + j] == y[j];
    }
  }

  /** If the log has no message twice, an accepted message is new, and no later accepted part has it. */
  lemma {:induction false} AcceptedOnce(before: seq<Message>, parts: seq<seq<Message>>, accepted: seq<bool>, n: nat,
                                        k: nat,
                                        m: Message)
    requires k < n <= |parts| && n <= |accepted| && accepted[k] && m in parts[k]
    requires Distinct(before + Kept(parts, accepted, n))
    ensures m !in before && Distinct(parts[k]) && forall j :: k < j < n && accepted[j] ==> m !in parts[j]
    decreases n
  {
    var shorter := before + Kept(parts, accepted, n - 1);
    var last := if accepted[n - 1] then parts[n - 1] else [];
    assert before + Kept(parts, accepted, n) == shorter + last;
    DistinctParts(shorter, last);
    if k < n - 1 {
      AcceptedOnce(before, parts, accepted, n - 1, k, m);
      InKept(parts, accepted, n - 1, k, m);
      assert m in shorter;
    }
    assert m in last && k == n - 1 ==> m !in shorter;
  }

  /** Part `j` has no message twice, none consumed before, and none that a later accepted part has. */
  ghost predicate OnlyOnce(before: seq<Message>, parts: seq<seq<Message>>, accepted: seq<bool>, j: nat)
    requires j < |parts| == |accepted|
  {
    && Distinct(parts[j])
    && forall m :: m in parts[j] ==> m !in before && forall k :: j < k < |parts| && accepted[k] ==> m !in parts[k]
  }

  /** No two accepted parts carry the same message, none carries one twice, and none carries one consumed before. */
  ghost predicate NoRepeat(before: seq<Message>, parts: seq<seq<Message>>, accepted: seq<bool>)
    requires |accepted| == |parts|
  {
    forall j :: 0 <= j < |parts| && accepted[j] ==> OnlyOnce(before, parts, accepted, j)
  }

  lemma EachAcceptedOnce(before: seq<Message>, parts: seq<seq<Message>>, accepted: seq<bool>)
    requires |accepted| == |parts| && Distinct(before + Kept(parts, accepted, |parts|))
    ensures NoRepeat(before, parts, accepted)
  {
    hide Kept;
    forall j | 0 <= j < |parts| && accepted[j]
      ensures OnlyOnce(before, parts, accepted, j)
    {
      forall m | m in parts[j]
        ensures m !in before && Distinct(parts[j]) && forall k :: j < k < |parts| && accepted[k] ==> m !in parts[k]
      {
        AcceptedOnce(before, parts, accepted, |parts|, j, m);
      }
      if parts[j] != [] {
        assert parts[j][0] in parts[j];
      }
    }
  }

  // ---- What keeps the bitmaps ----

  /** Block, byte and bit determine the sequence number. */
  lemma SameBit(s: nat, t: nat)
    requires s / MAX_BITS == t / MAX_BITS
    requires s / 8 % MAX_BYTES == t / 8 % MAX_BYTES && s % 8 == t % 8
    ensures s == t
  {
    assert s / 8 / MAX_BYTES == s / MAX_BITS && t / 8 / MAX_BYTES == t / MAX_BITS;
  }

  /** The account is not a replay blob. */
  ghost predicate NoBitmap(c: Crypto, app: App, a: bytes)
    requires ValidApp(app)
  {
    forall m: Message :: Messages(m) ==> BitmapOf(c, app, m) != a
  }

  /**
   * Slots of another emitter length are not replay blobs: 8 for guardians, 32 for assets and senders, 6 for "native".
   */
  lemma OtherSlot(c: Crypto, app: App, index: nat, emitter: bytes)
    requires ValidApp(app) && CollisionFree(c) && |emitter| != 34
    ensures NoBitmap(c, app, SigAddress(c, app, index, emitter))
  {
    forall m: Message | Messages(m)
      ensures BitmapOf(c, app, m) != SigAddress(c, app, index, emitter)
    {
      SlotsDoNotAlias(c, app, m.1 / MAX_BITS, m.0, index, emitter);
    }
  }

  /** Writes that leave the account's blob alone, opt in with zeros, or go elsewhere, keep the bitmaps. */
  lemma BitmapsKept(c: Crypto, app: App, local: map<bytes, Local>, a: bytes, l: Local, consumed: set<Message>)
    requires ValidApp(app) && AllWellFormed(local) && WellFormed(l) && Bitmaps(c, app, local, consumed)
    requires NoBitmap(c, app, a) || Flat(l) == (if a in local then Flat(local[a]) else Zeros(MAX_BYTES))
    ensures Bitmaps(c, app, local[a := l], consumed)
  {
    forall m: Message | Messages(m)
      ensures BitSet(c, app, local[a := l], m) <==> BitSet(c, app, local, m)
    {
      if BitmapOf(c, app, m) == a && a !in local {
        ZeroBits(0, m.1 % 8);
      }
    }
  }

  lemma {:induction false} ZeroBits(b: nat, i: nat)
    requires b == 0
    ensures !GetBit(b, i)
  {
    if i != 0 {
      ZeroBits(b / 2, i - 1);
    }
  }

  /** Setting a message's bit consumes that message and no other. */
  lemma BitmapsMarked(c: Crypto, app: App, local: map<bytes, Local>, m: Message, l: Local, b: byte,
                      consumed: set<Message>)
    requires ValidApp(app) && CollisionFree(c) && AllWellFormed(local) && WellFormed(l)
    requires Bitmaps(c, app, local, consumed)
    requires Messages(m) && BitmapOf(c, app, m) in local
    requires b == SetBit(Flat(local[BitmapOf(c, app, m)])[m.1 / 8 % MAX_BYTES], m.1 % 8)
    requires Flat(l) == Splice(Flat(local[BitmapOf(c, app, m)]), m.1 / 8 % MAX_BYTES, [b])
    ensures Bitmaps(c, app, local[BitmapOf(c, app, m) := l], consumed + {m})
  {
    var a := BitmapOf(c, app, m);
    var f := Flat(local[a]);
    forall n: Message | Messages(n)
      ensures BitSet(c, app, local[a := l], n) <==> n == m || BitSet(c, app, local, n)
    {
      if BitmapOf(c, app, n) == a {
        SlotsDoNotAlias(c, app, n.1 / MAX_BITS, n.0, m.1 / MAX_BITS, m.0);
        BitMarked(f, Flat(l), m.1, n.1);
        if n.1 / 8 % MAX_BYTES == m.1 / 8 % MAX_BYTES && n.1 % 8 == m.1 % 8 {
          SameBit(n.1, m.1);
        }
      }
    }
  }

  lemma BitMarked(f: bytes, g: bytes, s: nat, t: nat)
    requires |f| == MAX_BYTES && SetBit(f[s / 8 % MAX_BYTES], s % 8) < 256
    requires g == Splice(f, s / 8 % MAX_BYTES, [SetBit(f[s / 8 % MAX_BYTES], s % 8)])
    ensures BitIn(g, t) <==> BitIn(f, t) || (s / 8 % MAX_BYTES == t / 8 % MAX_BYTES && s % 8 == t % 8)
  {
    SetBitGets(f[s / 8 % MAX_BYTES], s % 8, t % 8);
  }

  // ---- checkForDuplicate ----

  /** The bytes checkForDuplicate extracts are there. */
  predicate HasMessage(vaa: bytes)
  {
    |vaa| > 5 && ChainOffset(vaa) + 42 <= |vaa|
  }

  function MessageOf(vaa: bytes): (m: Message)
    requires HasMessage(vaa)
    ensures Messages(m)
  {
    var off := ChainOffset(vaa);
    Fits(vaa[off + 34..off + 42], 8);
    (vaa[off..off + 34], ToInt(vaa[off + 34..off + 42]))
  }

  /** When a VAA may still be consumed, given the account passed for its bitmap. */
  ghost predicate Fresh(c: Crypto, app: App, local: map<bytes, Local>, consumed: set<Message>, vaa: bytes,
                        account: bytes)
    requires ValidApp(app)
  {
    && HasMessage(vaa) && vaa[0] == 1
    && account == BitmapOf(c, app, MessageOf(vaa)) && account in local
    && MessageOf(vaa) !in consumed
  }

  /** The message of an encoded VAA is its emitter and sequence, whatever else it holds. */
  lemma MessageEncoded(v: VAA)
    requires |v.signatures| <= 255
    ensures HasMessage(Encode(v)) && Encode(v)[0] == v.version
    ensures MessageOf(Encode(v)) == (FromInt(v.emitterChain, 2) + v.emitterAddress, v.sequence as nat)
  {
    hide FromInt, ToInt;
    EncodeLayout(v);
    EmitterAt(v);
    var d := Encode(v);
    var off := ChainOffset(d);
    assert d[off..off + 34] == d[off..off + 2] + d[off + 2..off + 34];
    Reads(v.sequence, 8);
  }

  /** Which VAAs are fresh: version 1, with the bitmap of their block of 15240 sequences, and not consumed. */
  lemma FreshExactly(c: Crypto, app: App, local: map<bytes, Local>, consumed: set<Message>, v: VAA, account: bytes)
    requires ValidApp(app) && |v.signatures| <= 255
    ensures var emitter := FromInt(v.emitterChain, 2) + v.emitterAddress;
      Fresh(c, app, local, consumed, Encode(v), account) <==>
      && v.version == 1
      && account == SigAddress(c, app, v.sequence / 15240, emitter) && account in local
      && (emitter, v.sequence as nat) !in consumed
  {
    hide Encode, FromInt, SigAddress;
    MessageEncoded(v);
  }

  /** Tests the message's bit and sets it. */
  method TestAndSet(c: Crypto, app: App, s: AppStorage, m: Message, account: bytes, ghost consumed: set<Message>)
    returns (ok: bool)
    requires s.Valid() && ValidApp(app) && CollisionFree(c) && Bitmaps(c, app, s.local, consumed)
    requires Messages(m) && account == BitmapOf(c, app, m)
    modifies s
    ensures s.Valid()
    ensures ok <==> account in old(s.local) && m !in consumed
    ensures !ok ==> s.local == old(s.local)
    ensures ok ==> account in s.local && s.local == old(s.local)[account := s.local[account]]
    ensures ok ==> s.local[account].meta == old(s.local)[account].meta
    ensures ok ==> Bitmaps(c, app, s.local, consumed + {m})
  {
    hide SigAddress, CollisionFree, Bitmaps, Flat, Splice, WellFormed, GetBit, SetBit, Pow2;
    var sequence := m.1;
    var offset := sequence / 8 % MAX_BYTES;
    assert offset % KEY_SPACE == offset;
    var b := s.GetByte(account, offset);
    if b == None { return false; }
    StoredBit(c, app, s.local, consumed, m);
    if GetBit(b.value, sequence % 8) { return false; }
    ByteStaysByte(b.value, sequence % 8);
    ghost var before := s.local;
    ok := s.SetByte(account, offset, SetBit(b.value, sequence % 8));
    BitmapsMarked(c, app, before, m, s.local[account], SetBit(b.value, sequence % 8), consumed);
  }

  lemma StoredBit(c: Crypto, app: App, local: map<bytes, Local>, consumed: set<Message>, m: Message)
    requires ValidApp(app) && AllWellFormed(local) && Bitmaps(c, app, local, consumed) && Messages(m)
    requires BitmapOf(c, app, m) in local
    ensures m in consumed <==> GetBit(Flat(local[BitmapOf(c, app, m)])[m.1 / 8 % MAX_BYTES], m.1 % 8)
  {
    hide SigAddress, Flat, GetBit;
    assert BitSet(c, app, local, m) <==> m in consumed;
  }

  lemma ByteStaysByte(b: byte, i: nat)
    requires i < 8
    ensures SetBit(b, i) < 256
  {
    assert Pow2(8) == 256;
    SetBitByte(b, i, 8);
  }

  /** Refuses a consumed VAA, otherwise marks it. The core contract also tags the blob. */
  method CheckForDuplicate(c: Crypto, app: App, s: AppStorage, vaa: bytes, account: bytes, tagged: bool,
                           ghost consumed: set<Message>)
    returns (ok: bool)
    requires s.Valid() && ValidApp(app) && CollisionFree(c) && Bitmaps(c, app, s.local, consumed)
    modifies s
    ensures s.Valid()
    ensures ok <==> Fresh(c, app, old(s.local), consumed, vaa, account)
    ensures !ok ==> s.local == old(s.local)
    ensures ok ==> account in s.local && s.local == old(s.local)[account := s.local[account]]
    ensures ok ==> s.local[account].meta == if tagged then Some(DUPLICATE) else old(s.local)[account].meta
    ensures ok ==> Bitmaps(c, app, s.local, consumed + {MessageOf(vaa)})
  {
    if |vaa| < 6 || vaa[0] != 1 || ChainOffset(vaa) + 42 > |vaa| { return false; }
    var m := MessageOf(vaa);
    if account != SigAddress(c, app, m.1 / MAX_BITS, m.0) { return false; }
    ok := TestAndSet(c, app, s, m, account, consumed);
    if ok && tagged {
      ghost var marked := s.local;
      ok := s.SetMeta(account, DUPLICATE);
      BitmapsKept(c, app, marked, account, s.local[account], consumed + {m});
    }
  }

  // ---- The client's check_bits_set ----

  const BITS_PER_KEY: nat := 1016
  const EXACT: nat := 0x20_0000_0000_0000  // 2^53

  ghost function Real(k: int): real
  {
    k as real
  }

  /**
   * Python's true division of two integers is the exact quotient rounded to a double: the relative error
   * is at most 2^-53, and rounding does not cross an integer that a double holds exactly.
   */
  ghost predicate Rounded(x: real, y: real)
  {
    && x - x / 9007199254740992.0 <= y <= x + x / 9007199254740992.0
    && forall k :: 0 <= k <= EXACT ==> (Real(k) <= x ==> Real(k) <= y) && (x <= Real(k) ==> y <= Real(k))
  }

  /**
   * IEEE rounding, as far as the quotients in use go: zero, and from 1/15240 up to 2^53, where doubles are normal.
   * Below that range rounding may underflow, above it nothing is said but the sign.
   */
  ghost predicate Rounding(round: real -> real)
  {
    && (forall x :: x == 0.0 || 1.0 / 15240.0 <= x <= EXACT as real ==> Rounded(x, round(x)))
    && (forall x :: 0.0 <= x ==> 0.0 <= round(x))
  }

  /** Rounding that underflows to zero is covered. */
  lemma UnderflowAllowed(round: real -> real)
    requires forall x :: round(x) == if x < 1.0 / 15240.0 then 0.0 else x
    ensures Rounding(round)
  {
  }

  function IntDiv(round: real -> real, n: nat, d: nat): int
    requires d > 0
  {
    round(n as real / d as real).Floor
  }

  /** Truncating the rounded quotient is integer division, for numerators below 2^53 and the divisors in use. */
  lemma IntDivExact(round: real -> real, n: nat, d: nat)
    requires Rounding(round) && (d == 8 || d == BITS_PER_KEY || d == MAX_BITS) && n < EXACT
    ensures IntDiv(round, n, d) == n / d
  {
    var q, x := n / d, n as real / d as real;
    assert q * d <= n <= q * d + d - 1;
    Quotient(n, d, q, x);
    assert Real(q) <= x && Rounded(x, round(x));
  }

  /** The rounding error n/(d 2^53) is smaller than the distance 1/d to the next integer. */
  lemma Quotient(n: nat, d: nat, q: nat, x: real)
    requires (d == 8 || d == BITS_PER_KEY || d == MAX_BITS) && n < EXACT && x == n as real / d as real
    requires q * d <= n <= q * d + d - 1
    ensures q <= EXACT && (x == 0.0 || 1.0 / 15240.0 <= x <= EXACT as real)
    ensures q as real <= x && x + x / 9007199254740992.0 < (q + 1) as real
  {
    if d == 8 {
      assert x == n as real / 8.0;
    } else if d == BITS_PER_KEY {
      assert x == n as real / 1016.0;
    } else {
      assert x == n as real / 15240.0;
    }
  }

  /** The key-value list of an account as the node reports it, in any order, possibly with a tag among the pages. */
  ghost predicate Reports(state: seq<(bytes, bytes)>, l: Local)
    requires WellFormed(l)
  {
    && (forall i :: 0 <= i < |state| && |state[i].0| == 1 ==>
          state[i].0[0] in l.pages && state[i].1 == l.pages[state[i].0[0]])
    && (forall k: byte :: k in l.pages ==> exists i :: 0 <= i < |state| && state[i].0 == [k])
  }

  /** Page and byte computed off chain are those of the flat blob. */
  lemma SameByte(sequence: nat, start: nat, s: nat, b: nat)
    requires start == sequence / MAX_BITS * MAX_BITS
    requires s == (sequence - start) / BITS_PER_KEY && b == (sequence - start - s * BITS_PER_KEY) / 8
    ensures s < MAX_KEYS && b < PAGE && PAGE * s + b == sequence / 8 % MAX_BYTES
  {
    var x := sequence - start;
    assert x == sequence % MAX_BITS;
    assert PAGE * s + b == x / 8;
    assert sequence / 8 == MAX_BYTES * (sequence / MAX_BITS) + x / 8;
  }

  /** Page and byte of a sequence number, by floating-point division. */
  method Locate(round: real -> real, sequence: nat) returns (s: nat, b: nat)
    requires Rounding(round) && sequence < EXACT
    ensures s < MAX_KEYS && b < PAGE && PAGE * s + b == sequence / 8 % MAX_BYTES
  {
    IntDivExact(round, sequence, MAX_BITS);
    var start := IntDiv(round, sequence, MAX_BITS) * MAX_BITS;
    IntDivExact(round, sequence - start, BITS_PER_KEY);
    s := IntDiv(round, sequence - start, BITS_PER_KEY);
    IntDivExact(round, sequence - start - s * BITS_PER_KEY, 8);
    b := IntDiv(round, sequence - start - s * BITS_PER_KEY, 8);
    SameByte(sequence, start, s, b);
  }

  /** The off-chain check reads the same bit, for sequences that a double holds exactly. */
  method CheckBitsSet(round: real -> real, state: Option<seq<(bytes, bytes)>>, sequence: nat,
                      ghost l: Option<Local>) returns (r: bool)
    requires Rounding(round) && sequence < EXACT
    requires (state.Some? <==> l.Some?) && (l.Some? ==> WellFormed(l.value) && Reports(state.value, l.value))
    ensures r <==> l.Some? && BitIn(Flat(l.value), sequence)
  {
    if state == None { return false; }
    var s, b := Locate(round, sequence);
    ghost var key: byte := s;
    assert key in l.value.pages;
    ghost var at :| 0 <= at < |state.value| && state.value[at].0 == [key];
    PageIndex(s, b);
    for i := 0 to |state.value|
      invariant i <= at
    {
      if state.value[i].0 == [s] {
        var v := state.value[i].1;
        GetBitIsShift(v[b], sequence % 8);
        return v[b] / Pow2(sequence % 8) % 2 == 1;
      }
    }
    assert false;
    r := false;
  }
}
