/** Token amounts and transfer payloads: what sendTransfer encodes, completeTransfer pays out and Go decodes. */
module Transfers {
  import opened Bytes
  import opened Transactions
  import opened Vaa

  // ---- Dust ----

  function Pow10(n: nat): (p: nat)
    ensures p > 0
  {
    if n == 0 then 1 else 10 * Pow10(n - 1)
  }

  /** The factor by which amounts are scaled down to eight decimals; above 19 decimals it rejects. */
  function GetFactor(decimals: nat): (f: Option<nat>)
    ensures f.Some? <==> decimals <= 19
    ensures f.Some? ==> f.value > 0
  {
    if decimals < 9 then Some(1) else if decimals > 19 then None else Some(Pow10(decimals - 8))
  }

  lemma {:induction false} PowersAdd(m: nat, n: nat)
    ensures Pow10(m + n) == Pow10(m) * Pow10(n)
  {
    if m != 0 {
      PowersAdd(m - 1, n);
      Times10(Pow10(m - 1), Pow10(n));
    }
  }

  lemma Times10(p: nat, q: nat)
    ensures 10 * p * q == 10 * (p * q)
  {
  }

  /** One unit after scaling is a unit of eight decimals, or of the asset itself if it has fewer. */
  lemma FactorScales(decimals: nat)
    ensures GetFactor(decimals).Some? <==> decimals <= 19
    ensures var shown := if decimals < 8 then decimals else 8;
      GetFactor(decimals).Some? ==> GetFactor(decimals).value * Pow10(shown) == Pow10(decimals)
  {
    if decimals > 8 {
      PowersAdd(decimals - 8, 8);
    }
  }

  /** An amount in units of the factor, the rest being dust. */
  function ScaleDown(a: nat, f: nat): (q: nat)
    requires f > 0
    ensures q <= a
  {
    QuotientSmall(a, f);
    a / f
  }

  lemma QuotientSmall(a: nat, f: nat)
    requires f > 0
    ensures a / f <= a
  {
    Dedusted(a, f);
    MulAtLeast(a / f, f);
  }

  lemma {:induction false} MulAtLeast(q: nat, f: nat)
    requires f > 0
    ensures q * f >= q
  {
    if q != 0 {
      MulAtLeast(q - 1, f);
      assert q * f == (q - 1) * f + f;
    }
  }

  /** Truncating an amount and scaling it back loses less than one factor. */
  lemma Dedusted(a: nat, f: nat)
    requires f > 0
    ensures a / f * f <= a < a / f * f + f
  {
    assert a == a / f * f + a % f;
  }

  lemma {:induction false} DivMonotone(a: nat, b: nat, f: nat)
    requires f > 0 && a <= b
    ensures a / f <= b / f
  {
    Dedusted(a, f);
    Dedusted(b, f);
    var k := b / f - a / f;
    assert k * f == b / f * f - a / f * f;
    assert k < 0 ==> k * f <= 0 - f;
  }

  /** Something is left exactly of amounts that reach the factor. */
  lemma Undusted(a: nat, f: nat)
    requires f > 0
    ensures ScaleDown(a, f) > 0 <==> a >= f
    ensures ScaleDown(a, f) * f <= a
  {
    Dedusted(a, f);
    if a >= f { DivMonotone(f, a, f); }
  }

  // ---- Payloads ----

  function Pad32(b: bytes): (r: bytes)
    requires |b| <= 32
    ensures |r| == 32
  {
    Zeros(32 - |b|) + b
  }

  /** The 101 bytes common to payloads 1 and 3. */
  datatype Transfer = Transfer(kind: byte, amount: u64, origin: Bytes32, originChain: bytes, target: Bytes32,
                               targetChain: bytes)

  ghost predicate WellSized(x: Transfer)
  {
    |x.originChain| == 2 && |x.targetChain| == 2
  }

  function TransferHead(x: Transfer): bytes
  {
    [x.kind] + Zeros(24) + FromInt(x.amount, 8) + x.origin + x.originChain + x.target + x.targetChain
  }

  /** Where each field sits. */
  lemma HeadFields(x: Transfer, tail: bytes)
    requires WellSized(x)
    ensures var p := TransferHead(x) + tail;
      && |p| == 101 + |tail| && p[0] == x.kind
      && p[1..25] == Zeros(24) && p[25..33] == FromInt(x.amount, 8)
      && p[33..65] == x.origin && p[65..67] == x.originChain
      && p[67..99] == x.target && p[99..101] == x.targetChain && p[101..] == tail
  {
    var h := TransferHead(x);
    HeadSlices(x, h);
    var p := h + tail;
    assert p[1..25] == h[1..25];
    assert p[25..33] == h[25..33];
    assert p[33..65] == h[33..65];
    assert p[65..67] == h[65..67];
    assert p[67..99] == h[67..99];
    assert p[99..101] == h[99..101];
  }

  lemma HeadSlices(x: Transfer, h: bytes)
    requires WellSized(x) && h == TransferHead(x)
    ensures |h| == 101 && h[0] == x.kind && h[1..25] == Zeros(24) && h[25..33] == FromInt(x.amount, 8)
    ensures h[33..65] == x.origin && h[65..67] == x.originChain && h[67..99] == x.target && h[99..101] == x.targetChain
  {
  }

  datatype TransferPayloadHdr = TransferPayloadHdr(
    kind: byte, amount: nat, originAddress: Bytes32, originChain: u16, targetAddress: Bytes32, targetChain: u16)

  /** Go's decoder: payload types 1 and 3, at least 101 bytes; the amount is the whole 32-byte field. */
  method DecodeTransferPayloadHdr(payload: bytes) returns (r: Option<TransferPayloadHdr>)
    ensures r.Some? <==> |payload| >= 101 && (payload[0] == 1 || payload[0] == 3)
    ensures r.Some? ==> r.value.kind == payload[0] && r.value.amount == ToInt(payload[1..33])
    ensures r.Some? ==> r.value.originAddress == payload[33..65] && r.value.originChain == ToInt(payload[65..67])
    ensures r.Some? ==> r.value.targetAddress == payload[67..99] && r.value.targetChain == ToInt(payload[99..101])
  {
    if |payload| == 0 || (payload[0] != 1 && payload[0] != 3) || |payload| < 101 { return None; }
    Fits(payload[65..67], 2);
    Fits(payload[99..101], 2);
    r := Some(TransferPayloadHdr(payload[0], ToInt(payload[1..33]), payload[33..65], ToInt(payload[65..67]),
                                 payload[67..99], ToInt(payload[99..101])));
  }

  /** Go's decoder gives back exactly the transfer that was encoded, whatever follows it. */
  method GoReadsTransfer(x: Transfer, tail: bytes) returns (r: Option<TransferPayloadHdr>)
    requires WellSized(x)
    ensures r.Some? <==> x.kind == 1 || x.kind == 3
    ensures r.Some? ==> r.value.kind == x.kind && r.value.amount == x.amount
    ensures r.Some? ==> r.value.originAddress == x.origin && FromInt(r.value.originChain, 2) == x.originChain
    ensures r.Some? ==> r.value.targetAddress == x.target && FromInt(r.value.targetChain, 2) == x.targetChain
  {
    var p := TransferHead(x) + tail;
    HeadFields(x, tail);
    AmountField(p, x.amount);
    Fits(x.originChain, 2);
    Fits(x.targetChain, 2);
    hide TransferHead;
    r := DecodeTransferPayloadHdr(p);
  }

  /** The 32-byte amount field: 24 zero bytes and the amount. */
  lemma AmountField(p: bytes, amount: u64)
    requires |p| >= 33 && p[1..25] == Zeros(24) && p[25..33] == FromInt(amount, 8)
    ensures ToInt(p[1..33]) == amount
  {
    assert p[1..33] == p[1..25] + p[25..33];
    ToIntPadded(24, FromInt(amount, 8));
    Reads(amount, 8);
  }

  // ---- completeTransfer's reading of a payload ----

  /** A transfer directed at Algorand: `amount` is what is left after the fee. */
  datatype Incoming = Incoming(kind: byte, amount: nat, fee: nat, origin: bytes, originChain: nat, destination: bytes)

  /** Reads a payload as completeTransfer does, at fixed offsets; anything out of place is a refusal. */
  function ParseIncoming(p: bytes): (r: Option<Incoming>)
    ensures r.Some? ==> |r.value.origin| == 32 && |r.value.destination| == 32 && r.value.originChain < U16
  {
    if |p| < 101 || (p[0] != 1 && p[0] != 3) || p[1..25] != Zeros(24) || ToInt(p[99..101]) != 8 then None
    else
      Fits(p[65..67], 2);
      var amount, origin, chain, destination := ToInt(p[25..33]), p[33..65], ToInt(p[65..67]), p[67..99];
      if p[0] == 3 then Some(Incoming(p[0], amount, 0, origin, chain, destination))
      else if |p| < 133 || p[101..125] != Zeros(24) || ToInt(p[125..133]) > amount then None
      else Some(Incoming(p[0], amount - ToInt(p[125..133]), ToInt(p[125..133]), origin, chain, destination))
  }

  /** Scaling back a native asset; a product beyond 64 bits is a refusal. */
  function ScaleBack(x: Incoming, asset: nat, decimals: nat): Option<(nat, nat)>
  {
    if asset == 0 then Some((x.amount, x.fee))
    else
      match GetFactor(decimals)
      case None => None
      case Some(f) =>
        if f == 1 then Some((x.amount, x.fee))
        else if x.amount * f < U64 && x.fee * f < U64 then Some((x.amount * f, x.fee * f)) else None
  }

  /** The factor of a deposit; Algos are not scaled, whatever the ledger says about decimals. */
  function FactorOf(asset: nat, decimals: nat): (f: nat)
    requires asset != 0 ==> decimals <= 19
    ensures f > 0
  {
    if asset == 0 then 1 else GetFactor(decimals).value
  }

  /** The tail of payload 1: the fee in a 32-byte field. */
  function FeeTail(fee: u64): bytes
  {
    Zeros(24) + FromInt(fee, 8)
  }

  /** A payload of type 1 with its fee, or one of type 3, directed at Algorand; more bytes may follow. */
  ghost predicate Carries(p: bytes, x: Transfer, fee: u64, rest: bytes)
  {
    && WellSized(x) && x.targetChain == [0, 8]
    && (|| (x.kind == 1 && p == TransferHead(x) + (FeeTail(fee) + rest))
        || (x.kind == 3 && p == TransferHead(x) + rest && fee == 0))
  }

  /** A payload of type 1 directed at Algorand reads back as the amount less the fee, and the fee. */
  lemma ParsesWithFee(x: Transfer, fee: u64, rest: bytes)
    requires WellSized(x) && x.kind == 1 && x.targetChain == ALGORAND_CHAIN
    ensures ParseIncoming(TransferHead(x) + (FeeTail(fee) + rest)) ==
            if fee <= x.amount then Some(Incoming(1, x.amount - fee, fee, x.origin, ToInt(x.originChain), x.target))
            else None
  {
    var tail := FeeTail(fee) + rest;
    var p := TransferHead(x) + tail;
    hide TransferHead;
    HeadFields(x, tail);
    SubSlice(p, 101, |p|, 0, 24);
    SubSlice(p, 101, |p|, 24, 32);
    assert tail[0..24] == Zeros(24) && tail[24..32] == FromInt(fee, 8);
    assert p[101..125] == Zeros(24) && p[125..133] == FromInt(fee, 8);
    Reads(fee, 8);
    Reads(x.amount, 8);
    ChainIsEight(p[99..101]);
  }

  /** A payload of type 3 reads back as the whole amount, without a fee. */
  lemma ParsesWithPayload(x: Transfer, tail: bytes)
    requires WellSized(x) && x.kind == 3 && x.targetChain == ALGORAND_CHAIN
    ensures ParseIncoming(TransferHead(x) + tail) ==
            Some(Incoming(3, x.amount, 0, x.origin, ToInt(x.originChain), x.target))
  {
    var p := TransferHead(x) + tail;
    hide TransferHead;
    HeadFields(x, tail);
    Reads(x.amount, 8);
    ChainIsEight(p[99..101]);
  }

  /** Only such payloads are read: whatever parses is a transfer of type 1 or 3 to Algorand, written as above. */
  lemma ParsesOnly(p: bytes) returns (x: Transfer, fee: u64, rest: bytes)
    requires ParseIncoming(p).Some?
    ensures Carries(p, x, fee, rest) && fee <= x.amount
  {
    TwoBytes(8);
    Reads(8, 2);
    Fits(p[99..101], 2);
    Fits(p[25..33], 8);
    x := Transfer(p[0], ToInt(p[25..33]), p[33..65], p[65..67], p[67..99], p[99..101]);
    Cut(p, x);
    if p[0] == 3 {
      fee, rest := 0, p[101..];
    } else {
      Fits(p[125..133], 8);
      fee, rest := ToInt(p[125..133]), p[133..];
      CutFee(p, fee);
    }
  }

  lemma CutFee(p: bytes, fee: u64)
    requires |p| >= 133 && p[101..125] == Zeros(24) && p[125..133] == FromInt(fee, 8)
    ensures p[101..] == FeeTail(fee) + p[133..]
  {
    assert p[101..] == p[101..125] + p[125..133] + p[133..];
  }

  lemma Cut(p: bytes, x: Transfer)
    requires |p| >= 101 && p[1..25] == Zeros(24) && p[25..33] == FromInt(x.amount, 8)
    requires x == Transfer(p[0], x.amount, p[33..65], p[65..67], p[67..99], p[99..101])
    ensures p == TransferHead(x) + p[101..]
  {
    assert p == p[..1] + p[1..25] + p[25..33] + p[33..65] + p[65..67] + p[67..99] + p[99..101] + p[101..];
    assert p[..1] == [x.kind];
  }

  lemma ChainIsEight(b: bytes)
    requires b == ALGORAND_CHAIN
    ensures ToInt(b) == 8
  {
    TwoBytes(8);
    Reads(8, 2);
  }

  /**
   * Conservation. A deposit `a` with fee `f <= a` of a native asset, scaled down by sendTransfer, is paid out
   * by completeTransfer as the largest multiple of the factor below the deposit, split between receiver and
   * relayer, and nothing overflows 64 bits.
   */
  lemma Conservation(asset: nat, decimals: nat, a: nat, fee: nat, x: Incoming)
    requires (asset != 0 ==> decimals <= 19) && fee <= a < U64
    requires var f := FactorOf(asset, decimals); x.amount + x.fee == a / f && (x.fee == fee / f || x.fee == 0)
    ensures var f, paid := FactorOf(asset, decimals), ScaleBack(x, asset, decimals);
      && paid.Some? && paid.value.0 + paid.value.1 == a / f * f
      && a - f < paid.value.0 + paid.value.1 <= a
      && paid.value.1 == x.fee * f
  {
    hide GetFactor;
    var f := FactorOf(asset, decimals);
    Dedusted(a, f);
    Split(x.amount, x.fee, f);
  }

  lemma Split(m: nat, n: nat, f: nat)
    ensures (m + n) * f == m * f + n * f && m * f >= 0 && n * f >= 0
  {
  }
}
