/** Deposits and redemptions on the ledger: what the escrow accounts of native assets hold. */
module Escrow {
  import opened Bytes
  import opened Cryptography
  import opened Guardians
  import opened LocalBlob
  import opened Replay
  import opened TmplSig
  import opened TokenBridge
  import opened Transactions
  import opened Transfers

  // ---- Balances ----

  /** An account and an asset; Algos are asset 0. */
  type Holding = (bytes, nat)

  function Get(h: map<Holding, nat>, k: Holding): nat
  {
    if k in h then h[k] else 0
  }

  /** Moves an amount from one account to another, if it is there. */
  function Move(h: map<Holding, nat>, asset: nat, from: bytes, to: bytes, amount: nat): Option<map<Holding, nat>>
  {
    var have := Get(h, (from, asset));
    if amount > have then None
    else
      var less := h[(from, asset) := have - amount];
      Some(less[(to, asset) := Get(less, (to, asset)) + amount])
  }

  /** What a transaction moves by itself. */
  function Coin(t: Txn): Option<nat>
  {
    match t.kind
    case Payment => Some(0)
    case AssetTransfer => if t.xferAsset == 0 then None else Some(t.xferAsset)
    case _ => None
  }

  /** The inner transfers of completeTransfer: the amount to the receiver, and the fee, if any, to the relayer. */
  function Pay(h: map<Holding, nat>, r: Release): Option<map<Holding, nat>>
  {
    match Move(h, r.asset, r.escrow, r.receiver, r.amount)
    case None => None
    case Some(paid) => if r.fee == 0 then Some(paid) else Move(paid, r.asset, r.escrow, r.relayer, r.fee)
  }

  lemma Moved(h: map<Holding, nat>, asset: nat, from: bytes, to: bytes, amount: nat, k: Holding)
    requires Move(h, asset, from, to, amount).Some? && k != (from, asset)
    ensures Get(Move(h, asset, from, to, amount).value, k) == Get(h, k) + if k == (to, asset) then amount else 0
  {
  }

  /** Whatever the receivers are, an account loses at most what it pays, and other accounts lose nothing. */
  lemma Paid(h: map<Holding, nat>, r: Release, k: Holding)
    ensures r.amount + r.fee <= Get(h, (r.escrow, r.asset)) ==> Pay(h, r).Some?
    ensures Pay(h, r).Some? ==>
      && Get(Pay(h, r).value, k) + r.amount + r.fee >= Get(h, k)
      && (k != (r.escrow, r.asset) ==> Get(Pay(h, r).value, k) >= Get(h, k))
  {
  }

  /** Between different accounts: the escrow loses both amounts, each receiver gets its own, and nothing else moves. */
  lemma PaidExactly(h: map<Holding, nat>, r: Release, k: Holding)
    requires Pay(h, r).Some? && r.escrow != r.receiver && r.escrow != r.relayer && r.receiver != r.relayer
    ensures Get(h, (r.escrow, r.asset)) == Get(Pay(h, r).value, (r.escrow, r.asset)) + r.amount + r.fee
    ensures Get(Pay(h, r).value, (r.receiver, r.asset)) == Get(h, (r.receiver, r.asset)) + r.amount
    ensures Get(Pay(h, r).value, (r.relayer, r.asset)) == Get(h, (r.relayer, r.asset)) + r.fee
    ensures k.1 != r.asset || (k.0 != r.escrow && k.0 != r.receiver && k.0 != r.relayer) ==>
              Get(Pay(h, r).value, k) == Get(h, k)
  {
  }

  // ---- What payloads are worth ----

  /** The amount field of a transfer of this native asset, in scaled-down units. */
  function Units(p: bytes, asset: nat): nat
  {
    if |p| >= 101 && p[65..67] == [0, 8] && ToInt(p[57..65]) == asset then ToInt(p[25..33]) else 0
  }

  function Total(payloads: seq<bytes>, asset: nat): nat
  {
    if payloads == [] then 0
    else Total(payloads[..|payloads| - 1], asset) + Units(payloads[|payloads| - 1], asset)
  }

  lemma TotalGrows(payloads: seq<bytes>, p: bytes, asset: nat)
    ensures Total(payloads + [p], asset) == Total(payloads, asset) + Units(p, asset)
  {
    assert (payloads + [p])[..|payloads|] == payloads;
  }

  lemma {:induction false} TotalAdds(x: seq<bytes>, y: seq<bytes>, asset: nat)
    ensures Total(x + y, asset) == Total(x, asset) + Total(y, asset)
    decreases |y|
  {
    hide Units;
    if y == [] {
      assert x + y == x;
    } else {
      hide Total;
      var init, p := y[..|y| - 1], y[|y| - 1];
      TotalAdds(x, init, asset);
      TotalGrows(x + init, p, asset);
      TotalGrows(init, p, asset);
      assert x + y == (x + init) + [p] && y == init + [p];
    }
  }

  lemma TakeOut(y: seq<bytes>, p: bytes) returns (front: seq<bytes>, back: seq<bytes>)
    requires p in y
    ensures y == front + [p] + back && multiset(y) == multiset(front + back) + multiset{p}
  {
    var j :| 0 <= j < |y| && y[j] == p;
    front, back := y[..j], y[j + 1..];
    assert y == front + [p] + back;
  }

  lemma Fewer(x: multiset<bytes>, y: multiset<bytes>, p: bytes)
    requires x + multiset{p} <= y + multiset{p}
    ensures x <= y
  {
    forall q
      ensures x[q] <= y[q]
    {
      assert (x + multiset{p})[q] <= (y + multiset{p})[q];
    }
  }

  /** Payloads that are all among others, counted as often, are worth no more. */
  lemma {:induction false} TotalWithin(x: seq<bytes>, y: seq<bytes>, asset: nat)
    requires multiset(x) <= multiset(y)
    ensures Total(x, asset) <= Total(y, asset)
    decreases |x|
  {
    hide Units;
    if x != [] {
      var init, p := x[..|x| - 1], x[|x| - 1];
      assert x == init + [p] && multiset(x) == multiset(init) + multiset{p};
      hide Total;
      assert p in multiset(x);
      var front, back := TakeOut(y, p);
      Fewer(multiset(init), multiset(front + back), p);
      TotalWithin(init, front + back, asset);
      TotalGrows(init, p, asset);
      TotalGrows(front, p, asset);
      TotalAdds(front, back, asset);
      TotalAdds(front + [p], back, asset);
    }
  }

  function PayloadOf(vaa: bytes): bytes
  {
    if |vaa| > 5 && ChainOffset(vaa) + 43 <= |vaa| then vaa[ChainOffset(vaa) + 43..] else []
  }

  function Payloads(vaas: seq<bytes>): seq<bytes>
  {
    seq(|vaas|, i requires 0 <= i < |vaas| => PayloadOf(vaas[i]))
  }

  /** The factor of an asset, if it can be sent at all. */
  function Factor(asset: nat, decimals: nat): nat
  {
    if asset != 0 && decimals > 19 then 0 else FactorOf(asset, decimals)
  }

  /** What sendTransfer publishes for a native asset counts for that asset and no other. */
  lemma PublishedUnits(p: bytes, x: Transfer, tail: bytes, id: bytes)
    requires WellSized(x) && p == TransferHead(x) + tail
    requires |id| <= 8 && x.origin == Pad32(id) && x.originChain == [0, 8]
    ensures forall a :: Units(p, a) == if a == ToInt(id) then x.amount else 0
  {
    hide TransferHead, ToInt, Pad32;
    HeadFields(x, tail);
    SubSlice(p, 33, 65, 24, 32);
    NativeId(id);
    Reads(x.amount, 8);
  }

  /** Whose account a release is paid from, and how much it takes in all. */
  ghost predicate Takes(c: Crypto, app: App, decimals: nat, r: Release, p: bytes)
    requires ValidApp(app)
  {
    || (&& r.escrow == SigAddress(c, app, r.asset, NATIVE)
        && r.amount + r.fee == Units(p, r.asset) * Factor(r.asset, decimals))
    || (exists k: Token :: IsToken(k) && r.escrow == AssetBlob(c, app, k))
  }

  /** A native release takes the payload's amount, scaled, from the asset's own escrow. */
  lemma Takings(b: Bridge, group: seq<Txn>, gi: nat, decimals: nat, selector: bytes, appAddress: nat -> Option<bytes>)
    requires b.Sane() && gi < |group| && b.Redeemed(group, gi, decimals, selector, appAddress).Some?
    ensures |group[gi].args| > 1
    ensures var r, p := b.Redeemed(group, gi, decimals, selector, appAddress).value, PayloadOf(group[gi].args[1]);
      && |p| >= 101
      && (p[65..67] != [0, 8] ==> exists k: Token :: IsToken(k) && r.escrow == AssetBlob(b.c, b.app, k))
      && (p[65..67] == [0, 8] ==>
            && r.asset == ToInt(p[57..65]) && r.escrow == SigAddress(b.c, b.app, r.asset, NATIVE)
            && r.amount + r.fee == Units(p, r.asset) * Factor(r.asset, decimals))
  {
    hide SigAddress, CollisionFree, Fresh, CommonChecks, ParseIncoming, ToInt, GetFactor;
    var p := PayloadOf(group[gi].args[1]);
    IncomingUnits(p);
    var x := ParseIncoming(p).value;
    Split(x.amount, x.fee, Factor(ToInt(x.origin[24..32]), decimals));
  }

  lemma IncomingUnits(p: bytes)
    requires ParseIncoming(p).Some?
    ensures var x := ParseIncoming(p).value;
      && |p| >= 101 && (x.originChain == 8 <==> p[65..67] == [0, 8]) && x.origin[24..32] == p[57..65]
      && (x.originChain == 8 ==> x.amount + x.fee == Units(p, ToInt(p[57..65])))
  {
    hide ToInt;
    EightOnly(p[65..67]);
    SubSlice(p, 33, 65, 24, 32);
  }

  // ---- Covering ----

  /** What is on the ledger, and the payloads of native assets that were published and redeemed. */
  datatype Position = Position(holdings: map<Holding, nat>, sent: seq<bytes>, redeemed: seq<bytes>)

  /** The escrow holds what was sent and not yet redeemed, and `slack` more. */
  ghost predicate Covers(p: Position, escrow: bytes, asset: nat, factor: nat, slack: nat)
  {
    Get(p.holdings, (escrow, asset)) + Total(p.redeemed, asset) * factor >= Total(p.sent, asset) * factor + slack
  }

  /** A deposit that was made by the transaction before `gi`, and not yet published. */
  ghost function Slack(group: seq<Txn>, gi: nat, escrow: bytes, asset: nat): nat
    requires gi <= |group|
  {
    if gi > 0 && Coin(group[gi - 1]) == Some(asset) && group[gi - 1].receiver == escrow then group[gi - 1].amount else 0
  }

  ghost predicate AllCovered(c: Crypto, app: App, decimals: nat -> nat, p: Position, group: seq<Txn>, gi: nat)
    requires ValidApp(app) && gi <= |group|
  {
    forall asset: nat ::
      var escrow := SigAddress(c, app, asset, NATIVE);
      Covers(p, escrow, asset, Factor(asset, decimals(asset)), Slack(group, gi, escrow, asset))
  }

  /** Nobody signs for an escrow: its account is handed over to the application. */
  ghost predicate NoEscrow(c: Crypto, app: App, account: bytes)
    requires ValidApp(app)
  {
    forall asset: nat :: SigAddress(c, app, asset, NATIVE) != account
  }

  /** A transfer by anybody else keeps every escrow covered, and leaves its amount as slack where it went. */
  lemma TransferCovers(c: Crypto, app: App, decimals: nat -> nat, p: Position, group: seq<Txn>, gi: nat)
    requires ValidApp(app) && gi < |group| && AllCovered(c, app, decimals, p, group, gi)
    requires Coin(group[gi]).Some? && NoEscrow(c, app, group[gi].sender)
    requires Move(p.holdings, Coin(group[gi]).value, group[gi].sender, group[gi].receiver, group[gi].amount).Some?
    ensures var t := group[gi];
      var later := Move(p.holdings, Coin(t).value, t.sender, t.receiver, t.amount).value;
      AllCovered(c, app, decimals, p.(holdings := later), group, gi + 1)
  {
    hide SigAddress, Factor, Move, Total;
    var t := group[gi];
    var later := Move(p.holdings, Coin(t).value, t.sender, t.receiver, t.amount).value;
    forall asset: nat
      ensures var escrow := SigAddress(c, app, asset, NATIVE);
        Covers(p.(holdings := later), escrow, asset, Factor(asset, decimals(asset)),
          Slack(group, gi + 1, escrow, asset))
    {
      Moved(p.holdings, Coin(t).value, t.sender, t.receiver, t.amount, (SigAddress(c, app, asset, NATIVE), asset));
    }
  }

  /** Any other call keeps what is covered; a deposit before it is not published and stays as surplus. */
  lemma QuietCovers(c: Crypto, app: App, decimals: nat -> nat, p: Position, group: seq<Txn>, gi: nat)
    requires ValidApp(app) && gi < |group| && AllCovered(c, app, decimals, p, group, gi) && Coin(group[gi]) == None
    ensures AllCovered(c, app, decimals, p, group, gi + 1)
  {
    hide SigAddress, Factor, Total;
  }

  /** Publishing a deposit uses up its slack. */
  lemma SendCoversOne(p: Position, escrow: bytes, asset: nat, factor: nat, slack: nat, payload: bytes)
    requires Covers(p, escrow, asset, factor, slack) && Units(payload, asset) * factor <= slack
    ensures Covers(p.(sent := p.sent + [payload]), escrow, asset, factor, 0)
  {
    hide Units, Total;
    TotalGrows(p.sent, payload, asset);
    Split(Total(p.sent, asset), Units(payload, asset), factor);
  }

  lemma SendCovers(c: Crypto, app: App, decimals: nat -> nat, p: Position, group: seq<Txn>, gi: nat, payload: bytes)
    requires ValidApp(app) && gi < |group| && AllCovered(c, app, decimals, p, group, gi) && Coin(group[gi]) == None
    requires forall a: nat ::
      Units(payload, a) * Factor(a, decimals(a)) <= Slack(group, gi, SigAddress(c, app, a, NATIVE), a)
    ensures AllCovered(c, app, decimals, p.(sent := p.sent + [payload]), group, gi + 1)
  {
    hide SigAddress, Factor, Covers, Units, Total;
    forall a: nat
      ensures var escrow := SigAddress(c, app, a, NATIVE);
        Covers(p.(sent := p.sent + [payload]), escrow, a, Factor(a, decimals(a)), Slack(group, gi + 1, escrow, a))
    {
      var escrow := SigAddress(c, app, a, NATIVE);
      assert Units(payload, a) * Factor(a, decimals(a)) <= Slack(group, gi, escrow, a);
      SendCoversOne(p, escrow, a, Factor(a, decimals(a)), Slack(group, gi, escrow, a), payload);
    }
  }

  /** A release takes from an escrow no more than its payload enters as redeemed. */
  lemma RedeemCoversOne(p: Position, later: map<Holding, nat>, escrow: bytes, asset: nat, factor: nat, slack: nat,
                        payload: bytes)
    requires Covers(p, escrow, asset, factor, slack)
    requires Get(later, (escrow, asset)) + Units(payload, asset) * factor >= Get(p.holdings, (escrow, asset))
    ensures Covers(p.(holdings := later, redeemed := p.redeemed + [payload]), escrow, asset, factor, 0)
  {
    hide Units, Total;
    TotalGrows(p.redeemed, payload, asset);
    Split(Total(p.redeemed, asset), Units(payload, asset), factor);
  }

  lemma RedeemCovers(c: Crypto, app: App, decimals: nat -> nat, p: Position, r: Release, group: seq<Txn>, gi: nat,
                     payload: bytes)
    requires ValidApp(app) && CollisionFree(c) && gi < |group| && Coin(group[gi]) == None
    requires AllCovered(c, app, decimals, p, group, gi) && Pay(p.holdings, r).Some?
    requires Takes(c, app, decimals(r.asset), r, payload)
    ensures AllCovered(c, app, decimals, p.(holdings := Pay(p.holdings, r).value, redeemed := p.redeemed + [payload]),
              group, gi + 1)
  {
    hide SigAddress, CollisionFree, Factor, Covers, Units, Total, Pay;
    var later := Pay(p.holdings, r).value;
    forall a: nat
      ensures var escrow := SigAddress(c, app, a, NATIVE);
        Covers(p.(holdings := later, redeemed := p.redeemed + [payload]), escrow, a, Factor(a, decimals(a)),
          Slack(group, gi + 1, escrow, a))
    {
      var escrow := SigAddress(c, app, a, NATIVE);
      Paid(p.holdings, r, (escrow, a));
      assert Units(payload, a) * Factor(a, decimals(a)) >= 0;
      if k: Token :| IsToken(k) && r.escrow == AssetBlob(c, app, k) {
        SlotsDoNotAlias(c, app, k.0, k.1, a, NATIVE);
      }
      RedeemCoversOne(p, later, escrow, a, Factor(a, decimals(a)), Slack(group, gi, escrow, a), payload);
    }
  }

  /** As long as no more is redeemed than was sent, the escrow can pay. */
  lemma NeverShort(p: Position, escrow: bytes, asset: nat, factor: nat, slack: nat, units: nat)
    requires Covers(p, escrow, asset, factor, slack) && Total(p.redeemed, asset) + units <= Total(p.sent, asset)
    ensures units * factor <= Get(p.holdings, (escrow, asset))
  {
    hide Total;
    var open := Total(p.sent, asset) - Total(p.redeemed, asset) - units;
    Split(Total(p.redeemed, asset), units, factor);
    Split(Total(p.redeemed, asset) + units, open, factor);
  }

  // ---- The ledger ----

  /**
   * What the chain answers for a transaction: the id of a new asset, the core's guardian set and message fee, the
   * authorizing address of the asset's creator, the seed of an opt-in, and whether a call that moves nothing succeeds.
   */
  datatype Env = Env(created: nat, currentSet: nat, messageFee: nat, authAddr: bytes, seed: nat, otherOk: bool)

  class Ledger {
    const bridge: Bridge
    /** Decimals of an asset, fixed when it was created. */
    const decimals: nat -> nat
    var holdings: map<Holding, nat>

    /** The payloads that sendTransfer published for native assets. */
    ghost var published: seq<bytes>

    ghost function Now(): Position
      reads this, bridge
    {
      Position(holdings, published, Payloads(bridge.dealings.redeemed))
    }

    /** Between the transactions of a group: every escrow is covered, and the deposit just made comes on top. */
    ghost predicate Midway(group: seq<Txn>, gi: nat)
      requires gi <= |group|
      reads this, bridge, bridge.storage
    {
      bridge.Valid() && AllCovered(bridge.c, bridge.app, decimals, Now(), group, gi)
    }

    /** Every escrow is covered. */
    ghost predicate Valid()
      reads this, bridge, bridge.storage
    {
      Midway([], 0)
    }

    /** The chain's guarantees for a group. */
    ghost predicate Proper(group: seq<Txn>, envs: seq<Env>)
      requires bridge.Sane()
    {
      && |envs| == |group|
      && (forall i :: 0 <= i < |group| ==>
            NoEscrow(bridge.c, bridge.app, group[i].sender) && group[i].amount < U64 && 0 < envs[i].created < U64)
      && (forall i :: 0 <= i < |group| && |group[i].args| > 1 ==> |group[i].args[1]| < 4096)
    }

    constructor (bridge: Bridge, decimals: nat -> nat, holdings: map<Holding, nat>)
      requires bridge.Valid()
      ensures Valid() && this.bridge == bridge && this.decimals == decimals && this.holdings == holdings
      ensures published == []
    {
      hide SigAddress, CollisionFree, Bitmaps, AssetsOk, DealingsOk, Distinct, WellFormed, AllCovered;
      this.bridge, this.decimals, this.holdings, published := bridge, decimals, holdings, [];
      NothingSent(bridge.c, bridge.app, decimals, holdings, Payloads(bridge.dealings.redeemed));
    }

    /** What a call of sendTransfer publishes for a native asset: one payload, worth the deposit before it less dust. */
    ghost predicate Worth(group: seq<Txn>, gi: nat, env: Env, more: seq<bytes>)
      requires 0 < gi < |group|
    {
      if bridge.Wrapped(group[gi], env.authAddr) then more == []
      else
        && |more| == 1 && |group[gi].args| > 1
        && var asset := ToInt(group[gi].args[1]); var f := Factor(asset, decimals(asset));
        && f > 0 && Units(more[0], asset) == group[gi - 1].amount / f
        && forall a :: a != asset ==> Units(more[0], a) == 0
    }

    /** The deposit before a call of sendTransfer is in order. */
    ghost predicate Sends(group: seq<Txn>, gi: nat, env: Env)
      requires bridge.Sane() && gi < |group|
      reads bridge
    {
      var t := group[gi];
      var asset := if |t.args| > 1 then ToInt(t.args[1]) else 0;
      bridge.Deposited(group, gi, decimals(asset), env.authAddr, env.messageFee)
    }

    /** sendTransfer after its deposit: what is published is in the escrow. */
    method Send(group: seq<Txn>, gi: nat, env: Env) returns (payload: Option<bytes>)
      requires gi < |group| && Midway(group, gi) && group[gi].kind == ApplicationCall
      requires forall i :: 0 <= i < |group| ==> group[i].amount < U64
      modifies this`published
      ensures payload.Some? ==> Midway(group, gi + 1)
      ensures published == if payload.Some? && !bridge.Wrapped(group[gi], env.authAddr)
                           then old(published) + [payload.value] else old(published)
      ensures payload.Some? ==> 0 < gi && Worth(group, gi, env, published[|old(published)|..])
      ensures payload.Some? <==> Sends(group, gi, env)
    {
      hide SigAddress, CollisionFree, Covers, Units, Total, Bitmaps, AssetsOk, DealingsOk, Distinct, WellFormed,
        FromInt, ToInt, TransferHead, Bridge.Sendable, GetFactor, FeeTail;
      var t := group[gi];
      var asset := if |t.args| > 1 then ToInt(t.args[1]) else 0;
      ghost var x;
      payload, x := bridge.SendTransfer(group, gi, decimals(asset), env.authAddr, env.messageFee);
      if payload == None { return; }
      if bridge.Wrapped(t, env.authAddr) {
        QuietCovers(bridge.c, bridge.app, decimals, Now(), group, gi);
      } else {
        ghost var fee := ScaleDown(ToInt(t.args[5]), FactorOf(asset, decimals(asset)));
        PublishedUnits(payload.value, x, if |t.args| == 7 then t.sender + t.args[6] else FeeTail(fee), t.args[1]);
        SendCovers(bridge.c, bridge.app, decimals, Now(), group, gi, payload.value);
        published := published + [payload.value];
      }
    }

    /** The decimals that completeTransfer looks up, those of the native asset of the transfer. */
    function DecimalsFor(t: Txn): nat
    {
      var p := if |t.args| > 1 then PayloadOf(t.args[1]) else [];
      decimals(if |p| >= 101 then ToInt(p[57..65]) else 0)
    }

    /** What the bridge would release. */
    ghost function Due(group: seq<Txn>, gi: nat, selector: bytes, appAddress: nat -> Option<bytes>): Option<Release>
      requires bridge.Sane() && gi < |group|
      reads bridge, bridge.storage
    {
      bridge.Redeemed(group, gi, DecimalsFor(group[gi]), selector, appAddress)
    }

    /** The transfer is of a native asset, and with it no more units of that asset are redeemed than were sent. */
    ghost predicate WithinSent(t: Txn)
      reads this, bridge
    {
      && |t.args| > 1
      && var p := PayloadOf(t.args[1]);
      && |p| >= 101 && p[65..67] == [0, 8]
      && var asset := ToInt(p[57..65]);
      Total(Payloads(bridge.dealings.redeemed), asset) + ToInt(p[25..33]) <= Total(published, asset)
    }

    lemma Taken(group: seq<Txn>, gi: nat, selector: bytes, appAddress: nat -> Option<bytes>)
      requires bridge.Sane() && gi < |group| && Due(group, gi, selector, appAddress).Some?
      ensures |group[gi].args| > 1
      ensures var r := Due(group, gi, selector, appAddress).value;
        Takes(bridge.c, bridge.app, decimals(r.asset), r, PayloadOf(group[gi].args[1]))
    {
      hide SigAddress, CollisionFree, Bridge.Redeemed, ToInt, Factor, PayloadOf, Units;
      Takings(bridge, group, gi, DecimalsFor(group[gi]), selector, appAddress);
    }

    /** A release within what was sent can be paid. */
    lemma CanPay(group: seq<Txn>, gi: nat, selector: bytes, appAddress: nat -> Option<bytes>)
      requires gi < |group| && Midway(group, gi) && Due(group, gi, selector, appAddress).Some? && WithinSent(group[gi])
      ensures Pay(holdings, Due(group, gi, selector, appAddress).value).Some?
    {
      hide SigAddress, CollisionFree, Covers, Total, Bitmaps, AssetsOk, DealingsOk, Distinct, WellFormed, Payloads,
        Bridge.Redeemed, ToInt, Factor, Pay, Takes, PayloadOf;
      Takings(bridge, group, gi, DecimalsFor(group[gi]), selector, appAddress);
      var r, p := Due(group, gi, selector, appAddress).value, PayloadOf(group[gi].args[1]);
      var factor, slack := Factor(r.asset, decimals(r.asset)), Slack(group, gi, r.escrow, r.asset);
      assert Covers(Now(), r.escrow, r.asset, factor, slack);
      NeverShort(Now(), r.escrow, r.asset, factor, slack, Units(p, r.asset));
      Paid(holdings, r, (r.escrow, r.asset));
    }

    /**
     * completeTransfer with its payments. A redemption that the bridge accepts is never short of funds as long as no
     * more units are redeemed than were sent.
     */
    method Redeem(group: seq<Txn>, gi: nat, selector: bytes, appAddress: nat -> Option<bytes>) returns (ok: bool)
      requires gi < |group| && Midway(group, gi) && group[gi].kind == ApplicationCall
      modifies this`holdings, bridge`log, bridge`dealings, bridge.storage
      ensures bridge.Valid() && bridge.Progress() && (ok ==> Midway(group, gi + 1))
      ensures ok ==>
        |group[gi].args| > 1 && bridge.dealings.redeemed == old(bridge.dealings.redeemed) + [group[gi].args[1]]
      ensures var due := old(Due(group, gi, selector, appAddress));
        && (ok <==> due.Some? && Pay(old(holdings), due.value).Some?)
        && (ok ==> Some(holdings) == Pay(old(holdings), due.value))
        && (due.Some? && old(WithinSent(group[gi])) ==> ok)
    {
      hide SigAddress, CollisionFree, Covers, Total, Bitmaps, AssetsOk, DealingsOk, Distinct, WellFormed,
        Bridge.Redeemed, ToInt, Factor, Pay, Takes, PayloadOf, Units, WithinSent, AllCovered;
      ghost var was, due := Now(), Due(group, gi, selector, appAddress);
      if due.Some? {
        Taken(group, gi, selector, appAddress);
        if WithinSent(group[gi]) { CanPay(group, gi, selector, appAddress); }
      }
      var r := bridge.CompleteTransfer(group, gi, DecimalsFor(group[gi]), selector, appAddress);
      if r == None { return false; }
      var later := Pay(holdings, r.value);
      if later == None { return false; }
      RedeemCovers(bridge.c, bridge.app, decimals, was, r.value, group, gi, PayloadOf(group[gi].args[1]));
      holdings := later.value;
      assert Now().redeemed == was.redeemed + [PayloadOf(group[gi].args[1])];
      ok := true;
    }

    /** The bridge's calls that move no native asset. */
    method Other(group: seq<Txn>, gi: nat, env: Env, selector: bytes, appAddress: nat -> Option<bytes>)
      returns (ok: bool)
      requires gi < |group| && Midway(group, gi) && group[gi].kind == ApplicationCall && 0 < env.created < U64
      requires |group[gi].args| > 1 ==> |group[gi].args[1]| < 4096
      modifies bridge, bridge.storage
      ensures bridge.Valid() && bridge.Progress() && (ok ==> Midway(group, gi + 1))
      ensures bridge.dealings.redeemed == old(bridge.dealings.redeemed)
    {
      hide SigAddress, CollisionFree, Covers, Bitmaps, AssetsOk, DealingsOk, Distinct, WellFormed, AllCovered;
      var t := group[gi];
      QuietCovers(bridge.c, bridge.app, decimals, Now(), group, gi);
      if t.completion == OptIn {
        if gi == 0 { return false; }
        ok := bridge.Optin(t, group[gi - 1], env.seed);
      } else if t.completion == NoOp && Calls(t, RECEIVE_ATTEST) {
        var r, params := bridge.ReceiveAttest(group, gi, env.created);
        ok := r.Some?;
      } else if t.completion == NoOp && Calls(t, GOVERNANCE) {
        ok := bridge.Governance(group, gi, env.currentSet);
      } else {
        ok := env.otherOk;
      }
    }

    /** The call is one of the bridge's, by this name. */
    predicate Routed(t: Txn, name: bytes)
    {
      t.kind == ApplicationCall && t.applicationId == bridge.app.id && t.completion == NoOp && Calls(t, name)
    }

    /** One transaction: a transfer by its sender, a call of the bridge with its payments, or something else. */
    method Execute(group: seq<Txn>, gi: nat, env: Env, selector: bytes, appAddress: nat -> Option<bytes>)
      returns (ok: bool)
      requires gi < |group| && Midway(group, gi) && 0 < env.created < U64
      requires forall i :: 0 <= i < |group| ==> group[i].amount < U64
      requires NoEscrow(bridge.c, bridge.app, group[gi].sender)
      requires |group[gi].args| > 1 ==> |group[gi].args[1]| < 4096
      modifies this, bridge, bridge.storage
      ensures bridge.Valid() && bridge.Progress() && (ok ==> Midway(group, gi + 1))
      ensures old(published) <= published
      ensures Coin(group[gi]).Some? ==>
        var t := group[gi];
        var later := Move(old(holdings), Coin(t).value, t.sender, t.receiver, t.amount);
        (ok <==> later.Some?) && (ok ==> Some(holdings) == later)
      ensures Routed(group[gi], SEND_TRANSFER) ==> ok == old(Sends(group, gi, env))
      ensures ok && Routed(group[gi], SEND_TRANSFER) ==>
        0 < gi && holdings == old(holdings) && Worth(group, gi, env, published[|old(published)|..])
      ensures !Routed(group[gi], SEND_TRANSFER) ==> published == old(published)
      ensures ok && Routed(group[gi], COMPLETE_TRANSFER) ==>
        && |group[gi].args| > 1 && bridge.dealings.redeemed == old(bridge.dealings.redeemed) + [group[gi].args[1]]
        && old(Due(group, gi, selector, appAddress)).Some?
        && Some(holdings) == Pay(old(holdings), old(Due(group, gi, selector, appAddress)).value)
      ensures Coin(group[gi]) == None && !Routed(group[gi], COMPLETE_TRANSFER) ==> holdings == old(holdings)
      ensures !Routed(group[gi], COMPLETE_TRANSFER) ==> bridge.dealings.redeemed == old(bridge.dealings.redeemed)
      ensures Routed(group[gi], COMPLETE_TRANSFER) && old(Due(group, gi, selector, appAddress)).Some? ==>
        old(WithinSent(group[gi])) ==> ok
    {
      hide SigAddress, CollisionFree, Bitmaps, AssetsOk, DealingsOk, Distinct, WellFormed, AllCovered, NoEscrow, Due,
        WithinSent, Worth, Sends, Pay, Move;
      var t := group[gi];
      var coin := Coin(t);
      if coin.Some? {
        var later := Move(holdings, coin.value, t.sender, t.receiver, t.amount);
        if later == None { return false; }
        TransferCovers(bridge.c, bridge.app, decimals, Now(), group, gi);
        holdings := later.value;
        return true;
      }
      if t.kind == AssetTransfer { return false; }
      QuietCovers(bridge.c, bridge.app, decimals, Now(), group, gi);
      if t.kind != ApplicationCall || t.applicationId != bridge.app.id { return env.otherOk; }
      if Routed(t, SEND_TRANSFER) {
        var payload := Send(group, gi, env);
        ok := payload.Some?;
      } else if Routed(t, COMPLETE_TRANSFER) {
        ok := Redeem(group, gi, selector, appAddress);
      } else {
        ok := Other(group, gi, env, selector, appAddress);
      }
    }

    /** The transactions of a group in order, up to the first that is refused. */
    method ExecuteAll(group: seq<Txn>, envs: seq<Env>, selector: bytes, appAddress: nat -> Option<bytes>)
      returns (ok: bool)
      requires Valid() && Proper(group, envs)
      modifies this, bridge, bridge.storage
      ensures bridge.Valid() && bridge.Progress() && old(published) <= published
      ensures ok ==> Valid()
    {
      hide SigAddress, CollisionFree, Bitmaps, AssetsOk, DealingsOk, Distinct, WellFormed, NoEscrow, Due, WithinSent,
        Worth, Sends, Pay;
      Starts(bridge.c, bridge.app, decimals, Now(), group);
      for gi := 0 to |group|
        invariant Midway(group, gi) && bridge.Progress() && old(published) <= published
      {
        ok := Execute(group, gi, envs[gi], selector, appAddress);
        if !ok { return; }
      }
      Ends(bridge.c, bridge.app, decimals, Now(), group);
      ok := true;
    }

    /** A group is atomic: if one transaction is refused, nothing happened. */
    method ExecuteGroup(group: seq<Txn>, envs: seq<Env>, selector: bytes, appAddress: nat -> Option<bytes>)
      returns (ok: bool)
      requires Valid() && Proper(group, envs)
      modifies this, bridge, bridge.storage
      ensures Valid() && bridge.Progress() && old(published) <= published
      ensures !ok ==> bridge.Unchanged() && holdings == old(holdings) && published == old(published)
    {
      hide SigAddress, CollisionFree, Bitmaps, AssetsOk, DealingsOk, Distinct, WellFormed, Proper, AllCovered;
      var saved, before := Snapshot(bridge.chains, bridge.upgradeHash, bridge.storage.local), holdings;
      ghost var log, assets, dealings, sent := bridge.log, bridge.assets, bridge.dealings, published;
      ok := ExecuteAll(group, envs, selector, appAddress);
      if !ok {
        bridge.Restore(saved, log, assets, dealings);
        holdings, published := before, sent;
      }
    }

    /** Any run of groups, accepted or refused, leaves every escrow covered. */
    method Run(groups: seq<(seq<Txn>, seq<Env>)>, selector: bytes, appAddress: nat -> Option<bytes>)
      requires Valid() && forall i :: 0 <= i < |groups| ==> Proper(groups[i].0, groups[i].1)
      modifies this, bridge, bridge.storage
      ensures Valid() && bridge.Progress() && old(published) <= published
    {
      hide SigAddress, CollisionFree, Bitmaps, AssetsOk, DealingsOk, Distinct, WellFormed, Proper, AllCovered;
      for i := 0 to |groups|
        invariant Valid() && bridge.Progress() && old(published) <= published
      {
        var ok := ExecuteGroup(groups[i].0, groups[i].1, selector, appAddress);
      }
    }

    /**
     * A redemption that the bridge accepts is paid if its payload was published and not redeemed before: together
     * with what was redeemed, it is among what was published.
     */
    lemma PublishedCanBePaid(group: seq<Txn>, gi: nat, selector: bytes, appAddress: nat -> Option<bytes>)
      requires gi < |group| && Midway(group, gi) && Due(group, gi, selector, appAddress).Some? && |group[gi].args| > 1
      requires var p := PayloadOf(group[gi].args[1]);
        && |p| >= 101 && p[65..67] == [0, 8]
        && multiset(Payloads(bridge.dealings.redeemed) + [p]) <= multiset(published)
      ensures Pay(holdings, Due(group, gi, selector, appAddress).value).Some?
    {
      hide SigAddress, CollisionFree, Bitmaps, AssetsOk, DealingsOk, Distinct, WellFormed, AllCovered, Due, PayloadOf,
        Payloads, Total, Pay;
      var p, redeemed := PayloadOf(group[gi].args[1]), Payloads(bridge.dealings.redeemed);
      TotalWithin(redeemed + [p], published, ToInt(p[57..65]));
      TotalGrows(redeemed, p, ToInt(p[57..65]));
      CanPay(group, gi, selector, appAddress);
    }

    /**
     * In every reachable state the escrow of every native asset holds at least what was published and not redeemed:
     * the amounts of the payloads, times the factor that deposits were divided by.
     */
    lemma EscrowCovers(asset: nat)
      requires Valid()
      ensures var d := decimals(asset);
        var f := if asset == 0 then 1 else if d > 19 then 0 else Pow10(DecimalsCut(d));
        var sent, redeemed := Total(published, asset), Total(Payloads(bridge.dealings.redeemed), asset);
        Get(holdings, (SigAddress(bridge.c, bridge.app, asset, NATIVE), asset)) >= (sent - redeemed) * f
    {
      hide SigAddress, CollisionFree, Bitmaps, AssetsOk, DealingsOk, Distinct, WellFormed, Total;
      var f := Factor(asset, decimals(asset));
      var escrow := SigAddress(bridge.c, bridge.app, asset, NATIVE);
      assert Covers(Now(), escrow, asset, f, Slack([], 0, escrow, asset));
      Difference(Total(published, asset), Total(Payloads(bridge.dealings.redeemed), asset), f);
    }
  }

  /** The decimals beyond eight. */
  function DecimalsCut(decimals: nat): nat
  {
    if decimals > 8 then decimals - 8 else 0
  }

  lemma Difference(m: nat, n: nat, f: nat)
    ensures (m - n) * f == m * f - n * f
  {
  }

  lemma NothingSent(c: Crypto, app: App, decimals: nat -> nat, h: map<Holding, nat>, redeemed: seq<bytes>)
    requires ValidApp(app)
    ensures AllCovered(c, app, decimals, Position(h, [], redeemed), [], 0)
  {
    hide SigAddress, Factor;
    forall asset: nat
      ensures Total([], asset) * Factor(asset, decimals(asset)) == 0
      ensures Total(redeemed, asset) * Factor(asset, decimals(asset)) >= 0
    {
    }
  }

  lemma Starts(c: Crypto, app: App, decimals: nat -> nat, p: Position, group: seq<Txn>)
    requires ValidApp(app) && AllCovered(c, app, decimals, p, [], 0)
    ensures AllCovered(c, app, decimals, p, group, 0)
  {
    hide SigAddress, Factor, Total;
  }

  lemma Ends(c: Crypto, app: App, decimals: nat -> nat, p: Position, group: seq<Txn>)
    requires ValidApp(app) && AllCovered(c, app, decimals, p, group, |group|)
    ensures AllCovered(c, app, decimals, p, [], 0)
  {
    hide SigAddress, Factor, Total;
  }
}
