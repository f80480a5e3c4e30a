/** Core and token bridge together: what the bridge acts on was signed by the guardians. */
module CrossContract {
  import opened Bytes
  import opened Cryptography
  import opened GuardianSets
  import opened LocalBlob
  import opened Replay
  import opened TmplSig
  import opened TokenBridge
  import opened Transactions
  import opened VaaVerify
  import opened WormholeCore
  import VerifyVaa

  /** A VAA that the bridge acted on, and when. */
  datatype Act = Act(vaa: bytes, at: nat)

  /**
   * The VAA names an accepted guardian set, and a quorum of distinct guardians of that set signed it: as the set was
   * accepted, or, after it was superseded, as it is stored since then, and then before its end.
   */
  ghost predicate Vouchsafed(c: Crypto, r: Record, act: Act)
    requires KeccakWidth(c)
  {
    && |act.vaa| > 5
    && var i := ToInt(act.vaa[1..5]);
    && i in r.sets && KeyBlob(r.sets[i])
    && (|| VerifyVaa.QuorumSigned(c, act.vaa, Image(r.sets[i], None))
        || (i in r.ends && act.at < r.ends[i] && VerifyVaa.QuorumSigned(c, act.vaa, Image(r.sets[i], Some(r.ends[i])))))
  }

  /** Accepted sets and ends stay, so what was vouched for stays so. */
  lemma StaysVouchsafed(c: Crypto, h: History, k: History, act: Act)
    requires KeccakWidth(c) && Grows(h, k) && Vouchsafed(c, h.record, act)
    ensures Vouchsafed(c, k.record, act)
  {
    hide VerifyVaa.QuorumSigned, Image, KeyBlob, ToInt;
  }

  /** An approved verifyVAA call vouches for its VAA. */
  lemma ApprovedIsSigned(core: Core, group: seq<Txn>, vi: nat, now: nat)
    requires core.Valid() && vi < |group| && core.Proper(group)
    requires VerifyVaa.Accepted(core.View(now), group, vi)
    ensures |group[vi].args| > 1 && Vouchsafed(core.c, core.Sets(), Act(group[vi].args[1], now))
  {
    hide SigAddress, BooksOk, ToInt, VerifyVaa.RunOk, VerifyVaa.QuorumSigned, Image, KeyBlob, ProgramOk;
    VerifyVaa.Soundness(core.View(now), group, vi);
    core.SetsInReachableState(ToInt(group[vi].args[1][1..5]));
  }

  /** Every verifyVAA call before `gi` was approved when it ran, and so its VAA is vouched for. */
  ghost predicate VouchedBefore(core: Core, group: seq<Txn>, gi: nat, now: nat)
    requires core.Sane() && gi <= |group|
    reads core
  {
    forall vi :: 0 <= vi < gi && IsVerify(core.app.id, group[vi]) ==>
      |group[vi].args| > 1 && Vouchsafed(core.c, core.Sets(), Act(group[vi].args[1], now))
  }

  ghost predicate AllVouchsafed(c: Crypto, r: Record, acts: seq<Act>)
    requires KeccakWidth(c)
  {
    forall i :: 0 <= i < |acts| ==> Vouchsafed(c, r, acts[i])
  }

  lemma AllStayVouchsafed(c: Crypto, h: History, k: History, acts: seq<Act>)
    requires KeccakWidth(c) && Grows(h, k) && AllVouchsafed(c, h.record, acts)
    ensures AllVouchsafed(c, k.record, acts)
  {
    hide Vouchsafed, Grows;
    forall i | 0 <= i < |acts|
      ensures Vouchsafed(c, k.record, acts[i])
    {
      StaysVouchsafed(c, h, k, acts[i]);
    }
  }

  /** The messages that the acts consumed. */
  function ActMessages(acts: seq<Act>): seq<Message>
  {
    if acts == [] then []
    else
      var last := acts[|acts| - 1].vaa;
      ActMessages(acts[..|acts| - 1]) + if HasMessage(last) then [MessageOf(last)] else []
  }

  lemma {:induction false} ActMessagesAdd(x: seq<Act>, y: seq<Act>)
    ensures ActMessages(x + y) == ActMessages(x) + ActMessages(y)
    decreases |y|
  {
    if y == [] {
      assert x + y == x;
    } else {
      ActMessagesAdd(x, y[..|y| - 1]);
      assert (x + y)[..|x + y| - 1] == x + y[..|y| - 1];
    }
  }

  lemma OneActMessage(vaa: bytes, at: nat)
    requires HasMessage(vaa)
    ensures ActMessages([Act(vaa, at)]) == [MessageOf(vaa)]
  {
    assert ActMessages([Act(vaa, at)][..0]) == [];
  }

  // ---- Both contracts, transaction by transaction ----

  /** What the ledger answers: the next asset id, decimals, and whether a call that writes no state succeeds. */
  datatype Env = Env(created: nat, decimals: nat, otherOk: bool)

  /** Two contracts with their own storage. */
  ghost predicate Together(core: Core, bridge: Bridge)
    reads core, core.storage, bridge, bridge.storage
  {
    && core.Valid() && bridge.Valid() && core.storage != bridge.storage
    && bridge.coreId == core.app.id && bridge.app.id != core.app.id
  }

  /** The ledger's guarantees for a group. */
  ghost predicate ProperGroup(core: Core, group: seq<Txn>, envs: seq<Env>)
    requires core.Sane()
  {
    && core.Proper(group) && |envs| == |group|
    && (forall i :: 0 <= i < |envs| ==> 0 < envs[i].created < U64)
    && (forall i :: 0 <= i < |group| && |group[i].args| > 1 ==> |group[i].args[1]| < 4096)
  }

  /** A VAA that the bridge's call repeats from an approved verifyVAA call is vouched for. */
  lemma RepeatedIsVouched(core: Core, bridge: Bridge, group: seq<Txn>, vi: nat, gi: nat, now: nat)
    requires core.Sane() && bridge.coreId == core.app.id && vi < gi < |group| && VouchedBefore(core, group, gi, now)
    requires VerifiedByCore(bridge.coreId, group[vi], group[gi])
    ensures |group[gi].args| > 1 && Vouchsafed(core.c, core.Sets(), Act(group[gi].args[1], now))
  {
    hide Vouchsafed;
    assert IsVerify(core.app.id, group[vi]);
  }

  /** The calls of the bridge that act on a VAA. */
  predicate ActsOn(appId: nat, t: Txn)
  {
    Routed(appId, t, COMPLETE_TRANSFER) || Routed(appId, t, RECEIVE_ATTEST) || Routed(appId, t, GOVERNANCE)
  }

  /** The call that a transaction makes, by the name of its method. */
  function OpOf(group: seq<Txn>, gi: nat, env: Env, currentSet: nat): Op
    requires gi < |group|
  {
    if Calls(group[gi], COMPLETE_TRANSFER) then CompleteCall(group, gi, env.decimals)
    else if Calls(group[gi], RECEIVE_ATTEST) then AttestCall(group, gi, env.created)
    else GovernanceCall(group, gi, currentSet)
  }

  /** The bridge accepts that call. */
  ghost predicate Performs(bridge: Bridge, group: seq<Txn>, gi: nat, env: Env, currentSet: nat, selector: bytes,
                           appAddress: nat -> Option<bytes>)
    requires bridge.Sane() && gi < |group| && 0 < env.created < U64
    requires |group[gi].args| > 1 ==> |group[gi].args[1]| < 4096
    reads bridge, bridge.storage
  {
    var t := group[gi];
    && (Calls(t, COMPLETE_TRANSFER) ==> bridge.Accepts(CompleteCall(group, gi, env.decimals), selector, appAddress))
    && (Calls(t, RECEIVE_ATTEST) ==> bridge.Accepts(AttestCall(group, gi, env.created), selector, appAddress))
    && (Calls(t, GOVERNANCE) ==> bridge.Accepts(GovernanceCall(group, gi, currentSet), selector, appAddress))
  }

  /** The bridge's part of a transaction. What it acts on is vouched for, and only that enters its log. */
  method BridgeStep(core: Core, bridge: Bridge, group: seq<Txn>, gi: nat, env: Env, now: nat, seedAmount: nat,
                    selector: bytes, appAddress: nat -> Option<bytes>)
    returns (ok: bool, ghost acts: seq<Act>)
    requires Together(core, bridge) && gi < |group| && VouchedBefore(core, group, gi, now)
    requires 0 < env.created < U64 && (|group[gi].args| > 1 ==> |group[gi].args[1]| < 4096)
    modifies bridge, bridge.storage
    ensures Together(core, bridge) && bridge.Progress()
    ensures !ok ==> bridge.Unchanged()
    ensures ok ==> bridge.log == old(bridge.log) + ActMessages(acts)
    ensures AllVouchsafed(core.c, core.Sets(), acts) && forall i :: 0 <= i < |acts| ==> acts[i].at == now
    ensures ok && ActsOn(bridge.app.id, group[gi]) ==> |group[gi].args| > 1 && acts == [Act(group[gi].args[1], now)]
    ensures ActsOn(bridge.app.id, group[gi]) ==>
      ok == old(Performs(bridge, group, gi, env, core.currentSet, selector, appAddress))
    ensures ok && Routed(bridge.app.id, group[gi], GOVERNANCE) ==>
      |group[gi].args| > 1 && |group[gi].args[1]| > 5 && ToInt(group[gi].args[1][1..5]) == core.currentSet
  {
    hide SigAddress, CollisionFree, BooksOk, Bitmaps, AssetsOk, DealingsOk, Vouchsafed, VouchedBefore, IsAttest,
      BridgeActionOf, Bridge.Accepts, VerifiedByCore, KeccakWidth, Distinct, WellFormed, Consumed, ActMessages;
    acts := [];
    NoMessages();
    var t, id := group[gi], bridge.app.id;
    if t.kind != ApplicationCall || t.applicationId != id { return true, acts; }
    if t.completion == OptIn {
      if gi == 0 { return false, acts; }
      ok := bridge.Optin(t, group[gi - 1], seedAmount);
      return;
    }
    if t.completion != NoOp || |t.args| == 0 { return false, acts; }
    if !ActsOn(id, t) { return env.otherOk, acts; }
    var op := OpOf(group, gi, env, core.currentSet);
    ok := bridge.Step(op, selector, appAddress);
    if ok {
      RepeatedIsVouched(core, bridge, group, gi - Distance(op), gi, now);
      acts := [Act(t.args[1], now)];
      OneActMessage(t.args[1], now);
    }
  }

  lemma NoMessages()
    ensures ActMessages([]) == []
  {
  }

  /** One transaction of a group: the core's part, then the bridge's. */
  method StepBoth(core: Core, bridge: Bridge, group: seq<Txn>, envs: seq<Env>, gi: nat, now: nat, seedAmount: nat,
                  selector: bytes, appAddress: nat -> Option<bytes>)
    returns (ok: bool, ghost acts: seq<Act>)
    requires Together(core, bridge) && ProperGroup(core, group, envs) && gi < |group|
    requires core.PreviousApproved(group, gi, now) && VouchedBefore(core, group, gi, now)
    modifies core, core.storage, bridge, bridge.storage
    ensures Together(core, bridge) && core.Progress() && bridge.Progress()
    ensures ok ==> core.PreviousApproved(group, gi + 1, now) && VouchedBefore(core, group, gi + 1, now)
    ensures ok ==> bridge.log == old(bridge.log) + ActMessages(acts)
    ensures AllVouchsafed(core.c, core.Sets(), acts) && forall i :: 0 <= i < |acts| ==> acts[i].at == now
  {
    hide SigAddress, CollisionFree, BooksOk, Bitmaps, AssetsOk, DealingsOk, Vouchsafed, KeccakWidth, Distinct,
      WellFormed, Consumed, ActMessages, Grows, VerifyVaa.Accepted, Stepped, Consumption, ProgramSigned;
    ghost var past := core.Past();
    acts := [];
    ok := core.Execute(group, gi, now, seedAmount);
    NextVouched(core, past, group, gi, now, ok);
    if !ok { return; }
    ok, acts := BridgeStep(core, bridge, group, gi, envs[gi], now, seedAmount, selector, appAddress);
  }

  /** The core's step keeps what was vouched for, and adds the VAA of an approved verifyVAA call. */
  lemma NextVouched(core: Core, past: History, group: seq<Txn>, gi: nat, now: nat, ok: bool)
    requires core.Valid() && gi < |group| && core.Proper(group) && Grows(past, core.Past())
    requires forall vi :: 0 <= vi < gi && IsVerify(core.app.id, group[vi]) ==>
               |group[vi].args| > 1 && Vouchsafed(core.c, past.record, Act(group[vi].args[1], now))
    requires ok ==> core.PreviousApproved(group, gi + 1, now)
    ensures VouchedBefore(core, group, gi, now) && (ok ==> VouchedBefore(core, group, gi + 1, now))
  {
    hide BooksOk, Vouchsafed, Grows, VerifyVaa.Accepted, ProgramSigned;
    forall vi | 0 <= vi < gi && IsVerify(core.app.id, group[vi])
      ensures |group[vi].args| > 1 && Vouchsafed(core.c, core.Sets(), Act(group[vi].args[1], now))
    {
      StaysVouchsafed(core.c, past, core.Past(), Act(group[vi].args[1], now));
    }
    if ok && IsVerify(core.app.id, group[gi]) {
      ApprovedIsSigned(core, group, gi, now);
    }
  }

  /** The transactions of a group in order, up to the first that is refused. */
  method AllBoth(core: Core, bridge: Bridge, group: seq<Txn>, envs: seq<Env>, now: nat, seedAmount: nat,
                 selector: bytes, appAddress: nat -> Option<bytes>)
    returns (ok: bool, ghost acts: seq<Act>)
    requires Together(core, bridge) && ProperGroup(core, group, envs)
    modifies core, core.storage, bridge, bridge.storage
    ensures Together(core, bridge) && core.Progress() && bridge.Progress()
    ensures ok ==> bridge.log == old(bridge.log) + ActMessages(acts)
    ensures AllVouchsafed(core.c, core.Sets(), acts) && forall i :: 0 <= i < |acts| ==> acts[i].at == now
  {
    hide SigAddress, CollisionFree, BooksOk, Bitmaps, AssetsOk, DealingsOk, Vouchsafed, KeccakWidth, Distinct,
      WellFormed, Consumed, ActMessages, Grows, VerifyVaa.Accepted, ProperGroup;
    acts := [];
    NoMessages();
    GrowsNot(core.Past());
    for gi := 0 to |group|
      invariant Together(core, bridge) && core.Progress() && bridge.Progress()
      invariant core.PreviousApproved(group, gi, now) && VouchedBefore(core, group, gi, now)
      invariant bridge.log == old(bridge.log) + ActMessages(acts)
      invariant AllVouchsafed(core.c, core.Sets(), acts) && forall i :: 0 <= i < |acts| ==> acts[i].at == now
    {
      ghost var past := core.Past();
      ghost var more;
      ok, more := StepBoth(core, bridge, group, envs, gi, now, seedAmount, selector, appAddress);
      GrowsOn(old(core.Past()), past, core.Past());
      AllStayVouchsafed(core.c, past, core.Past(), acts);
      if !ok { return; }
      ActMessagesAdd(acts, more);
      acts := acts + more;
    }
    ok := true;
  }

  /** A group is atomic for both contracts. */
  method GroupBoth(core: Core, bridge: Bridge, group: seq<Txn>, envs: seq<Env>, now: nat, seedAmount: nat,
                   selector: bytes, appAddress: nat -> Option<bytes>)
    returns (ok: bool, ghost acts: seq<Act>)
    requires Together(core, bridge) && ProperGroup(core, group, envs)
    modifies core, core.storage, bridge, bridge.storage
    ensures Together(core, bridge) && core.Progress() && bridge.Progress()
    ensures !ok ==> core.Unchanged() && bridge.Unchanged()
    ensures bridge.log == old(bridge.log) + ActMessages(acts)
    ensures AllVouchsafed(core.c, core.Sets(), acts) && forall i :: 0 <= i < |acts| ==> acts[i].at == now
  {
    hide SigAddress, CollisionFree, BooksOk, Bitmaps, AssetsOk, DealingsOk, Vouchsafed, KeccakWidth, ValidApp,
      Distinct, WellFormed, Consumed, ActMessages, Grows, ProperGroup;
    var globals := Globals(core.booted, core.programHash, core.currentSet, core.messageFee, core.upgradeHash);
    var local, saved := core.storage.local, Snapshot(bridge.chains, bridge.upgradeHash, bridge.storage.local);
    ghost var past, log, assets, dealings := core.Past(), bridge.log, bridge.assets, bridge.dealings;
    GrowsNot(core.Past());
    NoMessages();
    ok, acts := AllBoth(core, bridge, group, envs, now, seedAmount, selector, appAddress);
    if !ok {
      acts := [];
      core.Restore(globals, local, past);
      bridge.Restore(saved, log, assets, dealings);
    }
  }

  /** The groups of a run, with their times. */
  datatype Round = Round(group: seq<Txn>, envs: seq<Env>, at: nat)

  /**
   * Any run of groups through both contracts. Every message in the bridge's log comes from a VAA that the guardians
   * signed: every release, attestation, registration and upgrade, at its moment and for good.
   */
  method RunBoth(core: Core, bridge: Bridge, rounds: seq<Round>, seedAmount: nat, selector: bytes,
                 appAddress: nat -> Option<bytes>)
    returns (ghost acts: seq<Act>)
    requires Together(core, bridge)
    requires forall k :: 0 <= k < |rounds| ==> ProperGroup(core, rounds[k].group, rounds[k].envs)
    modifies core, core.storage, bridge, bridge.storage
    ensures Together(core, bridge) && core.Progress() && bridge.Progress()
    ensures bridge.log == old(bridge.log) + ActMessages(acts) && AllVouchsafed(core.c, core.Sets(), acts)
  {
    hide SigAddress, CollisionFree, BooksOk, Bitmaps, AssetsOk, DealingsOk, Vouchsafed, KeccakWidth, Distinct,
      WellFormed, Consumed, ActMessages, Grows, ProperGroup;
    acts := [];
    NoMessages();
    GrowsNot(core.Past());
    for k := 0 to |rounds|
      invariant Together(core, bridge) && core.Progress() && bridge.Progress()
      invariant bridge.log == old(bridge.log) + ActMessages(acts) && AllVouchsafed(core.c, core.Sets(), acts)
    {
      ghost var past := core.Past();
      ghost var more;
      var ok;
      var r := rounds[k];
      ok, more := GroupBoth(core, bridge, r.group, r.envs, r.at, seedAmount, selector, appAddress);
      GrowsOn(old(core.Past()), past, core.Past());
      AllStayVouchsafed(core.c, past, core.Past(), acts);
      ActMessagesAdd(acts, more);
      acts := acts + more;
    }
  }
}
