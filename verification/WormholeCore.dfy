/** The core contract: boot, governance, message publication and opt-in, as steps on global and local state. */
module WormholeCore {
  import opened Bytes
  import opened Counters
  import opened Cryptography
  import opened Guardians
  import opened GuardianSets
  import opened LocalBlob
  import opened Replay
  import opened TmplSig
  import opened Transactions
  import opened VaaVerify
  import VerifyVaa

  // ---- Governance payloads ----

  datatype Action =
    | Upgrade(hash: bytes)
    | NewSet(index: nat, count: nat, blob: bytes)
    | SetFee(fee: nat)
    | Transfer(amount: nat, destination: bytes)

  const ALL_CHAINS: bytes := [0, 0]

  /** The governance header is there: source chain, emitter and module match. */
  predicate IsGovernance(vaa: bytes)
  {
    && |vaa| > 5
    && var off := ChainOffset(vaa);
    && off + 78 <= |vaa|
    && vaa[off..off + 2] == [0, 1]
    && vaa[off + 2..off + 34] == GOVERNANCE_EMITTER
    && vaa[off + 43..off + 75] == CORE_MODULE
  }

  /** The action, its target and its fields, read at fixed offsets; a field out of range is a refusal. */
  function ParseAction(vaa: bytes): Option<Action>
    requires IsGovernance(vaa)
  {
    var off := ChainOffset(vaa);
    var target := vaa[off + 76..off + 78];
    match vaa[off + 75]
    case 1 =>
      if target == ALGORAND_CHAIN && off + 110 <= |vaa| then Some(Upgrade(vaa[off + 78..off + 110])) else None
    case 2 => ParseSet(vaa, target)
    case 3 =>
      if target == ALGORAND_CHAIN && off + 110 <= |vaa| then Some(SetFee(ToInt(vaa[off + 102..off + 110]))) else None
    case 4 =>
      if target == ALGORAND_CHAIN && off + 142 <= |vaa|
      then Some(Transfer(ToInt(vaa[off + 102..off + 110]), vaa[off + 110..off + 142])) else None
    case _ => None
  }

  function ParseSet(vaa: bytes, target: bytes): (r: Option<Action>)
    requires IsGovernance(vaa)
    ensures r.Some? ==> r.value.NewSet? && |r.value.blob| == 1 + 20 * r.value.count && 0 < r.value.count
                        && r.value.index < U32 && r.value.blob[0] == r.value.count
  {
    var off := ChainOffset(vaa);
    if (target == ALGORAND_CHAIN || target == ALL_CHAINS) && off + 83 <= |vaa| then
      var count: int := vaa[off + 82];
      Fits(vaa[off + 78..off + 82], 4);
      if count > 0 && off + 83 + 20 * count <= |vaa|
      then Some(NewSet(ToInt(vaa[off + 78..off + 82]), count, vaa[off + 82..off + 83 + 20 * count]))
      else None
    else None
  }

  function ActionOf(vaa: bytes): Option<Action>
  {
    if IsGovernance(vaa) then ParseAction(vaa) else None
  }

  lemma ParsedBlob(vaa: bytes, a: Action)
    requires ActionOf(vaa) == Some(a) && a.NewSet?
    ensures KeyBlob(a.blob) <==> |a.blob| < MAX_BYTES
    ensures |a.blob| == 1 + 20 * a.count && 0 < a.count < 256 && a.index < U32
  {
  }

  lemma ParsedCount(vaa: bytes, a: Action)
    requires ActionOf(vaa) == Some(a) && a.NewSet?
    ensures |a.blob| > 0 && a.blob[0] == a.count
  {
  }

  // ---- The invariant of the storage ----

  /** What the blobs stand for: consumed messages, guardian sets and published messages. */
  datatype Books = Books(consumed: set<Message>, record: Record, published: seq<Publication>)

  ghost predicate BooksOk(c: Crypto, app: App, local: map<bytes, Local>, b: Books)
    requires ValidApp(app) && AllWellFormed(local)
  {
    && Bitmaps(c, app, local, b.consumed)
    && Rotation(c, app, local, b.record)
    && CountersOk(c, app, local, b.published)
  }

  /** No other account's storage changed. */
  ghost predicate Framed(before: map<bytes, Local>, after: map<bytes, Local>, touched: set<bytes>)
  {
    forall a :: a !in touched ==> (a in after <==> a in before) && (a in after ==> after[a] == before[a])
  }

  /** Opting in with a blank blob changes nothing in the books. */
  lemma OptinKeeps(c: Crypto, app: App, local: map<bytes, Local>, a: bytes, l: Local, b: Books)
    requires ValidApp(app) && AllWellFormed(local) && WellFormed(l) && BooksOk(c, app, local, b)
    requires a !in local && l.meta == None && Flat(l) == Zeros(MAX_BYTES)
    ensures BooksOk(c, app, local[a := l], b)
  {
    hide SigAddress, Bitmaps, Rotation, CountersOk;
    BitmapsKept(c, app, local, a, l, b.consumed);
    RotationKept(c, app, local, a, l, b.record);
    CountersKept(c, app, local, a, l, b.published);
  }

  /** Consuming a message touches only its bitmap. */
  lemma ConsumeKeeps(c: Crypto, app: App, local: map<bytes, Local>, m: Message, l: Local, b: Books)
    requires ValidApp(app) && CollisionFree(c) && AllWellFormed(local) && WellFormed(l) && Messages(m)
    requires BooksOk(c, app, local, b) && l.meta == Some(DUPLICATE)
    requires Bitmaps(c, app, local[BitmapOf(c, app, m) := l], b.consumed + {m})
    ensures NoSet(c, app, BitmapOf(c, app, m))
    ensures BooksOk(c, app, local[BitmapOf(c, app, m) := l], b.(consumed := b.consumed + {m}))
  {
    hide SigAddress, CollisionFree, Bitmaps, Rotation, CountersOk;
    var a := BitmapOf(c, app, m);
    OtherThanSet(c, app, m.1 / MAX_BITS, m.0);
    OtherThanCounter(c, app, m.1 / MAX_BITS, m.0);
    RotationKept(c, app, local, a, l, b.record);
    CountersKept(c, app, local, a, l, b.published);
  }

  /** Advancing a sender's counter touches neither bitmaps nor guardian sets nor another sender's counter. */
  lemma PublishKeeps(c: Crypto, app: App, local: map<bytes, Local>, sender: bytes, l: Local, b: Books, number: nat)
    requires ValidApp(app) && CollisionFree(c) && AllWellFormed(local) && WellFormed(l) && |sender| == 32
    requires BooksOk(c, app, local, b) && l.meta == Some(PUBLISH_MESSAGE)
    requires number == Counter(c, app, local, sender) + 1 < U64 && Flat(l)[..8] == FromInt(number, 8)
    ensures var after := local[SigAddress(c, app, 0, sender) := l];
      BooksOk(c, app, after, b.(published := b.published + [(sender, number)]))
    ensures number == Count(b.published, sender) + 1
  {
    hide SigAddress, CollisionFree, Bitmaps, Rotation, CountersOk, Counter, Count, FromInt, Flat, WellFormed;
    CounterIsCount(c, app, local, b.published, sender);
    var a := SigAddress(c, app, 0, sender);
    OtherSlot(c, app, 0, sender);
    OtherThanSet(c, app, 0, sender);
    BitmapsKept(c, app, local, a, l, b.consumed);
    RotationKept(c, app, local, a, l, b.record);
    CountersAdvanced(c, app, local, sender, l, b.published);
  }

  /** Writing guardian sets touches no bitmap and no counter. */
  lemma InstallKeeps(c: Crypto, app: App, local: map<bytes, Local>, i: nat, l: Local, consumed: set<Message>,
                     published: seq<Publication>)
    requires ValidApp(app) && CollisionFree(c) && AllWellFormed(local) && WellFormed(l)
    requires Bitmaps(c, app, local, consumed) && CountersOk(c, app, local, published)
    ensures Bitmaps(c, app, local[SetAddress(c, app, i) := l], consumed)
    ensures CountersOk(c, app, local[SetAddress(c, app, i) := l], published)
  {
    hide CollisionFree, Bitmaps, CountersOk;
    OtherSlot(c, app, i, GUARDIAN);
    OtherThanCounter(c, app, i, GUARDIAN);
    BitmapsKept(c, app, local, SetAddress(c, app, i), l, consumed);
    CountersKept(c, app, local, SetAddress(c, app, i), l, published);
  }

  /** Blob `newSet` holds the set and is tagged; another blob `oldSet` has its expiry stamped; nothing else changed. */
  ghost predicate Stored(local: map<bytes, Local>, after: map<bytes, Local>, newSet: bytes, oldSet: bytes, blob: bytes,
                         now: nat)
    requires AllWellFormed(local) && AllWellFormed(after)
  {
    && KeyBlob(blob)
    && newSet in local && newSet in after && oldSet in local && oldSet in after
    && after == local[newSet := after[newSet]][oldSet := after[oldSet]]
    && after[newSet].meta == Some(GUARDIAN)
    && Flat(after[newSet]) == Splice(Flat(local[newSet]), 0, blob)
    && (newSet != oldSet ==>
          && now + DAY < U64 && after[oldSet].meta == local[oldSet].meta
          && Flat(after[oldSet]) == Splice(Flat(local[oldSet]), EXPIRY, FromInt(now + DAY, 8)))
  }

  /** The first set stored in a contract without sets. */
  lemma BootKeeps(c: Crypto, app: App, local: map<bytes, Local>, after: map<bytes, Local>, index: nat, blob: bytes,
                  now: nat, b: Books)
    requires ValidApp(app) && CollisionFree(c) && AllWellFormed(local) && AllWellFormed(after)
    requires BooksOk(c, app, local, b) && b.record.first == b.record.next == 0
    requires Stored(local, after, SetAddress(c, app, index), SetAddress(c, app, index), blob, now)
    ensures b.record == Record(0, 0, map[], map[])
    ensures BooksOk(c, app, after, b.(record := Record(index, index + 1, map[index := blob], map[])))
  {
    hide SigAddress, CollisionFree, Bitmaps, CountersOk, Image, KeyBlob, Flat, Splice;
    var a := SetAddress(c, app, index);
    assert b.record.sets == map[] && b.record.ends == map[];
    assert Blank(c, app, local, index);
    FreshImage(Flat(local[a]), blob);
    FirstInstalled(c, app, local, index, after[a], blob);
    assert after == local[a := after[a]];
    InstallKeeps(c, app, local, index, after[a], b.consumed, b.published);
  }

  /** Set `next` stored, in blob `a`, after the current one, in blob `o`. */
  lemma RotateKeeps(c: Crypto, app: App, local: map<bytes, Local>, after: map<bytes, Local>, a: bytes, o: bytes,
                    blob: bytes, now: nat, b: Books)
    requires ValidApp(app) && CollisionFree(c) && AllWellFormed(local) && AllWellFormed(after)
    requires BooksOk(c, app, local, b) && b.record.first < b.record.next
    requires a == SetAddress(c, app, b.record.next) && o == SetAddress(c, app, b.record.next - 1)
    requires Stored(local, after, a, o, blob, now)
    ensures BooksOk(c, app, after, b.(record := Superseded(b.record, blob, now + DAY)))
  {
    hide SigAddress, CollisionFree, Bitmaps, CountersOk, Flat, Splice, Rotation, Updated, KeyBlob, FromInt, Superseded;
    var r := b.record;
    RotatedSets(c, app, local, after, a, o, blob, now, r);
    NextInstalled(c, app, local, after, r, blob, now + DAY);
    var middle := local[a := after[a]];
    assert after == middle[o := after[o]];
    InstallKeeps(c, app, local, r.next, after[a], b.consumed, b.published);
    InstallKeeps(c, app, middle, r.next - 1, after[o], b.consumed, b.published);
  }

  lemma RotatedSets(c: Crypto, app: App, local: map<bytes, Local>, after: map<bytes, Local>, a: bytes, o: bytes,
                    blob: bytes, now: nat, r: Record)
    requires ValidApp(app) && CollisionFree(c) && AllWellFormed(local) && AllWellFormed(after)
    requires r.first < r.next && Rotation(c, app, local, r)
    requires a == SetAddress(c, app, r.next) && o == SetAddress(c, app, r.next - 1)
    requires Stored(local, after, a, o, blob, now)
    ensures r.next - 1 in r.sets && Updated(local, after, a, blob, o, r.sets[r.next - 1], now + DAY) && now + DAY < U64
  {
    hide SigAddress, CollisionFree, FromInt, Flat, Splice, KeyBlob, Rotation, Image;
    SlotsDoNotAlias(c, app, r.next, GUARDIAN, r.next - 1, GUARDIAN);
    EndsOfRotation(c, app, local, r);
    FreshImage(Flat(local[a]), blob);
    StampedImage(r.sets[r.next - 1], now + DAY);
  }

  lemma StampedImage(b: bytes, end: nat)
    requires KeyBlob(b)
    ensures Image(b, Some(end)) == Splice(Image(b, None), EXPIRY, FromInt(end, 8))
  {
  }

  /** The guardian set blobs that an action writes. */
  ghost function Written(c: Crypto, app: App, a: Action, current: nat): set<bytes>
    requires ValidApp(app)
  {
    if a.NewSet? then {SetAddress(c, app, a.index), SetAddress(c, app, current)} else {}
  }

  /** Consuming the message and applying the action touch the bitmap and the written sets, nothing else. */
  lemma ActionFrame(c: Crypto, app: App, before: map<bytes, Local>, middle: map<bytes, Local>, after: map<bytes, Local>,
                    account: bytes, a: Action, current: nat, now: nat)
    requires ValidApp(app) && AllWellFormed(middle) && AllWellFormed(after)
    requires account in middle && middle == before[account := middle[account]]
    requires !a.NewSet? ==> after == middle
    requires a.NewSet? ==> Stored(middle, after, SetAddress(c, app, a.index), SetAddress(c, app, current), a.blob, now)
    ensures Framed(before, after, {account} + Written(c, app, a, current))
  {
    hide SigAddress, Flat, Splice, FromInt, KeyBlob;
  }

  // ---- Runs ----

  /** What a run may only add to. */
  datatype History = History(log: seq<Message>, published: seq<Publication>, record: Record, booted: bool)

  /** The logs are extended, the sets move forward, at most once per consumed message, and old sets and ends stay. */
  ghost predicate Grows(h: History, k: History)
  {
    && h.log <= k.log && h.published <= k.published && (h.booted ==> k.booted)
    && (forall i :: i in h.record.sets ==> i in k.record.sets && k.record.sets[i] == h.record.sets[i])
    && (forall i :: i in h.record.ends ==> i in k.record.ends && k.record.ends[i] == h.record.ends[i])
    && h.record.next <= k.record.next && (h.record.first < h.record.next ==> k.record.first == h.record.first)
    && k.record.next - k.record.first <= h.record.next - h.record.first + |k.log| - |h.log|
  }

  lemma GrowsNot(h: History)
    ensures Grows(h, h)
  {
  }

  lemma GrowsByMessage(h: History, k: History, p: Publication)
    requires k == h.(published := h.published + [p])
    ensures Grows(h, k)
  {
  }

  /** The sets and ends on record are where they belong. */
  predicate Bounded(r: Record)
  {
    && r.first <= r.next && (forall i :: i in r.sets ==> r.first <= i < r.next)
    && (forall i :: i in r.ends ==> r.first <= i && i + 1 < r.next)
  }

  /** What an action does to the record: nothing, the first set, or one more set. */
  ghost predicate Moves(r: Record, s: Record)
  {
    || s == r
    || (r.first == r.next == 0 && s.next == s.first + 1)
    || (r.first < r.next && exists blob, end :: s == Superseded(r, blob, end))
  }

  lemma GrowsByAction(h: History, k: History, m: Message)
    requires k.log == h.log + [m] && k.published == h.published && (h.booted ==> k.booted)
    requires Bounded(h.record) && Moves(h.record, k.record)
    ensures Grows(h, k)
  {
  }

  lemma GrowsOn(h: History, k: History, m: History)
    requires Grows(h, k) && Grows(k, m)
    ensures Grows(h, m)
  {
  }

  // ---- Which calls consume which messages ----

  /** The transaction calls a method of the application. */
  predicate Routed(appId: nat, t: Txn, name: bytes)
  {
    t.kind == ApplicationCall && t.applicationId == appId && t.completion == NoOp && Calls(t, name)
  }

  /** The message that the transaction consumes if it is accepted: only init and governance consume one. */
  function Consumption(appId: nat, t: Txn): seq<Message>
  {
    if (Routed(appId, t, INIT) || Routed(appId, t, GOVERNANCE)) && |t.args| > 1 && HasMessage(t.args[1])
    then [MessageOf(t.args[1])]
    else []
  }

  /** The messages of the first `n` transactions of a group. */
  function GroupMessages(appId: nat, group: seq<Txn>, n: nat): seq<Message>
    requires n <= |group|
  {
    if n == 0 then [] else GroupMessages(appId, group, n - 1) + Consumption(appId, group[n - 1])
  }

  /** The messages that a group consumes if it is accepted. */
  function MessagesOf(appId: nat, group: (seq<Txn>, nat)): seq<Message>
  {
    GroupMessages(appId, group.0, |group.0|)
  }

  /** What each group consumes if it is accepted. */
  function Parts(appId: nat, groups: seq<(seq<Txn>, nat)>): (parts: seq<seq<Message>>)
    ensures |parts| == |groups|
  {
    seq(|groups|, i requires 0 <= i < |groups| => MessagesOf(appId, groups[i]))
  }

  lemma CounterIs(f: bytes, g: bytes, sequence: bytes)
    requires |f| == MAX_BYTES && |sequence| == 8 && g == Splice(f, 0, sequence)
    ensures g[..8] == sequence
  {
  }

  // ---- The contract ----

  /** When a governance VAA is accepted: current set, known action, and for a new set a blob it fits and the index. */
  ghost predicate AllowedIn(c: Crypto, app: App, currentSet: nat, local: map<bytes, Local>, isBoot: bool, t: Txn,
                            now: nat)
    requires ValidApp(app) && |t.args| > 1
  {
    var vaa := t.args[1];
    && ActionOf(vaa).Some? && (currentSet != 0 ==> ToInt(vaa[1..5]) == currentSet)
    && (ActionOf(vaa).value.NewSet? ==>
          && var index, blob := ActionOf(vaa).value.index, ActionOf(vaa).value.blob;
          && |blob| < MAX_BYTES && |t.accounts| > 3 && t.accounts[3] == SetAddress(c, app, index)
             && t.accounts[3] in local
          && (!isBoot ==> index == currentSet + 1 && now + DAY < U64))
  }

  /** The applied action shows in the state. */
  ghost predicate ShowsIn(vaa: bytes, g: Globals, r: Record)
  {
    var a := ActionOf(vaa);
    && a.Some?
    && (a.value.Upgrade? ==> g.upgradeHash == a.value.hash)
    && (a.value.SetFee? ==> g.messageFee == a.value.fee)
    && (a.value.NewSet? ==>
          && g.currentSet == a.value.index && r.next == g.currentSet + 1
          && g.currentSet in r.sets && r.sets[g.currentSet] == a.value.blob)
  }

  /** What an accepted action pays out, and to whom. */
  function PaymentOf(a: Action): Option<(nat, bytes)>
  {
    if a.Transfer? then Some((a.amount, a.destination)) else None
  }

  /** The record after an accepted action. */
  ghost function RecordAfter(isBoot: bool, a: Action, r: Record, now: nat): Record
  {
    if !a.NewSet? then r
    else if isBoot || r.next == 0 then Record(a.index, a.index + 1, map[a.index := a.blob], map[])
    else Superseded(r, a.blob, now + DAY)
  }

  /** What an accepted governance call leaves: its message in the log, its action in the state and on record. */
  ghost predicate GovernedIn(t: Txn, now: nat, before: History, g: Globals, after: History)
  {
    && |t.args| > 1 && HasMessage(t.args[1])
    && var vaa := t.args[1];
    && ShowsIn(vaa, g, after.record)
    && after == History(before.log + [MessageOf(vaa)], before.published,
                        RecordAfter(false, ActionOf(vaa).value, before.record, now), before.booted)
  }

  /** The transaction is routed to verifyVAA of the application. */
  predicate IsVerify(appId: nat, t: Txn)
  {
    Routed(appId, t, VERIFY_VAA)
  }

  /** The checks that tie a governance call to the verifyVAA call before it. */
  predicate FollowsVerify(appId: nat, group: seq<Txn>, gi: nat)
    requires gi < |group|
  {
    && 0 < gi
    && var p, t := group[gi - 1], group[gi];
    && IsVerify(appId, p) && p.sender == t.sender && p.rekeyTo == ZERO_ADDRESS && t.rekeyTo == ZERO_ADDRESS
    && |p.args| > 1 && |t.args| > 1 && p.args[1] == t.args[1]
    && |p.accounts| > 2 && |t.accounts| > 2
    && p.accounts[0] == t.accounts[0] && p.accounts[1] == t.accounts[1] && p.accounts[2] == t.accounts[2]
  }

  /** Which call a governance call follows: an unrekeyed verifyVAA of the same VAA, by the same sender. */
  lemma FollowsVerifyMeans(appId: nat, group: seq<Txn>, gi: nat)
    requires gi < |group|
    ensures FollowsVerify(appId, group, gi) <==>
      && gi > 0
      && group[gi - 1].kind == ApplicationCall && group[gi - 1].applicationId == appId
      && group[gi - 1].completion == NoOp && |group[gi - 1].args| > 1 && group[gi - 1].args[0] == VERIFY_VAA
      && |group[gi].args| > 1 && group[gi].args[1] == group[gi - 1].args[1]
      && group[gi].sender == group[gi - 1].sender
      && group[gi].rekeyTo == group[gi - 1].rekeyTo == ZERO_ADDRESS
      && |group[gi].accounts| > 2 && |group[gi - 1].accounts| > 2
      && group[gi].accounts[..3] == group[gi - 1].accounts[..3]
  {
    var p, t := group[if gi > 0 then gi - 1 else 0], group[gi];
    if |p.accounts| > 2 && |t.accounts| > 2 {
      assert p.accounts[..3] == [p.accounts[0], p.accounts[1], p.accounts[2]];
      assert t.accounts[..3] == [t.accounts[0], t.accounts[1], t.accounts[2]];
    }
  }

  /** The state of the contract between two transactions, with what it stands for. */
  datatype State = State(g: Globals, local: map<bytes, Local>, past: History)

  ghost predicate GovernableIn(c: Crypto, app: App, s: State, group: seq<Txn>, gi: nat, now: nat)
    requires ValidApp(app) && gi < |group|
  {
    && FollowsVerify(app.id, group, gi) && AllowedIn(c, app, s.g.currentSet, s.local, false, group[gi], now)
    && Fresh(c, app, s.local, Consumed(s.past.log), group[gi].args[1], group[gi].accounts[1])
  }

  /** The transaction opts an account in. */
  predicate Joins(appId: nat, t: Txn)
  {
    t.kind == ApplicationCall && t.applicationId == appId && t.completion == OptIn
  }

  /** Transactions that leave the contract as it is, accepted or not. */
  predicate Quiet(appId: nat, t: Txn)
  {
    && !Joins(appId, t)
    && !Routed(appId, t, PUBLISH_MESSAGE) && !Routed(appId, t, INIT) && !Routed(appId, t, GOVERNANCE)
  }

  /** Transactions that are never refused by this contract: other ones' and nops. */
  predicate Idle(appId: nat, t: Txn)
  {
    t.kind != ApplicationCall || t.applicationId != appId || Routed(appId, t, NOP)
  }

  /** A quiet transaction is accepted: it is idle, sent by the program, or an approved verifyVAA call. */
  ghost predicate QuietIn(c: Crypto, app: App, s: State, group: seq<Txn>, gi: nat, now: nat)
    requires ValidApp(app) && KeccakWidth(c) && AllWellFormed(s.local) && gi < |group|
  {
    var t := group[gi];
    || Idle(app.id, t) || (Routed(app.id, t, VERIFY_SIGS) && t.sender == s.g.programHash)
    || (IsVerify(app.id, t)
        && VerifyVaa.Accepted(VerifyVaa.View(c, app, s.g.programHash, now, s.local), group, gi))
  }

  /** A group around one governance call: quiet transactions before it, idle ones after it. */
  predicate OneAction(appId: nat, group: seq<Txn>, g: nat)
  {
    && g < |group| && Routed(appId, group[g], GOVERNANCE)
    && (forall i :: 0 <= i < g ==> Quiet(appId, group[i])) && (forall i :: g < i < |group| ==> Idle(appId, group[i]))
  }

  /** The group around a governance call is accepted: every transaction, in the state before the group. */
  ghost predicate ActionAccepted(c: Crypto, app: App, s: State, group: seq<Txn>, g: nat, now: nat)
    requires ValidApp(app) && KeccakWidth(c) && AllWellFormed(s.local) && g < |group|
  {
    GovernableIn(c, app, s, group, g, now) && forall i :: 0 <= i < g ==> QuietIn(c, app, s, group, i, now)
  }

  /** Where such a group stands after `gi` transactions. */
  ghost predicate Halfway(c: Crypto, app: App, before: State, s: State, group: seq<Txn>, g: nat, gi: nat, now: nat)
    requires ValidApp(app) && KeccakWidth(c) && AllWellFormed(before.local) && g < |group| && gi <= |group|
  {
    if gi <= g then s == before && forall i :: 0 <= i < gi ==> QuietIn(c, app, before, group, i, now)
    else ActionAccepted(c, app, before, group, g, now) && GovernedIn(group[g], now, before.past, s.g, s.past)
  }

  /** What one transaction does, in values. */
  ghost predicate Stepped(c: Crypto, app: App, s: State, k: State, group: seq<Txn>, gi: nat, now: nat, ok: bool)
    requires ValidApp(app) && KeccakWidth(c) && AllWellFormed(s.local) && gi < |group|
  {
    && (Quiet(app.id, group[gi]) ==> k == s && ok == QuietIn(c, app, s, group, gi, now))
    && (Routed(app.id, group[gi], GOVERNANCE) ==>
          && ok == GovernableIn(c, app, s, group, gi, now)
          && (ok ==> GovernedIn(group[gi], now, s.past, k.g, k.past)))
  }

  lemma HalfwayNext(c: Crypto, app: App, before: State, s: State, k: State, group: seq<Txn>, g: nat, gi: nat, now: nat,
                    ok: bool)
    requires ValidApp(app) && KeccakWidth(c) && AllWellFormed(before.local) && AllWellFormed(s.local)
    requires gi < |group| && OneAction(app.id, group, g) && Halfway(c, app, before, s, group, g, gi, now)
    requires Stepped(c, app, s, k, group, gi, now, ok)
    ensures ok ==> Halfway(c, app, before, k, group, g, gi + 1, now)
    ensures !ok ==> !ActionAccepted(c, app, before, group, g, now)
  {
    hide GovernedIn, GovernableIn, VerifyVaa.Accepted, KeccakWidth, AllWellFormed;
    if gi > g {
      IdleIsQuiet(app.id, group[gi]);
    }
  }

  lemma OneInside(appId: nat, group: seq<Txn>, g: nat)
    requires OneAction(appId, group, g)
    ensures g < |group|
  {
  }

  lemma IdleIsQuiet(appId: nat, t: Txn)
    requires Idle(appId, t)
    ensures Quiet(appId, t)
  {
  }

  datatype Globals = Globals(booted: bool, programHash: bytes, currentSet: nat, messageFee: nat, upgradeHash: bytes)

  class Core {
    const c: Crypto
    const app: App
    const creator: bytes
    /** Hash of the stateless signature program. */
    const program: bytes
    const storage: AppStorage

    var booted: bool
    var programHash: bytes
    var currentSet: nat
    var messageFee: nat
    var upgradeHash: bytes

    /** Messages consumed so far, in order. */
    ghost var log: seq<Message>
    /** Guardian sets accepted so far: from `first` up to but not including `next`. */
    ghost var first: nat
    ghost var next: nat
    /** What each accepted set was: its count and its keys. */
    ghost var sets: map<nat, bytes>
    /** When each superseded set ends: one day after the update that superseded it. */
    ghost var ends: map<nat, nat>
    /** Messages published so far, in order. */
    ghost var published: seq<Publication>

    ghost predicate Sane()
    {
      ValidApp(app) && CollisionFree(c) && KeccakWidth(c) && |program| == 32
    }

    ghost function Book(): Books
      reads this
    {
      Books(Consumed(log), Sets(), published)
    }

    ghost function Sets(): Record
      reads this
    {
      Record(first, next, sets, ends)
    }

    ghost predicate Valid()
      reads this, storage
    {
      && Sane() && storage.Valid() && Distinct(log)
      && BooksOk(c, app, storage.local, Book())
      && currentSet == (if first == next then 0 else next - 1) && currentSet < U32
      && (first == next ==> first == 0) && (!booted ==> first == next)
      && programHash == if booted then program else []
    }

    /** Everything but the log and the blobs is as before. */
    twostate predicate SameGlobals()
      reads this
    {
      && booted == old(booted) && programHash == old(programHash) && currentSet == old(currentSet)
      && messageFee == old(messageFee) && upgradeHash == old(upgradeHash) && first == old(first) && next == old(next)
      && sets == old(sets) && ends == old(ends)
    }

    twostate predicate Unchanged()
      reads this, storage
    {
      SameGlobals() && log == old(log) && published == old(published) && storage.local == old(storage.local)
    }

    constructor (c: Crypto, app: App, creator: bytes, program: bytes)
      requires ValidApp(app) && CollisionFree(c) && KeccakWidth(c) && |program| == 32
      ensures Valid() && log == [] && published == [] && Sets() == Record(0, 0, map[], map[])
      ensures !booted && currentSet == 0 && messageFee == 0 && storage.local == map[]
      ensures fresh(storage) && this.c == c && this.app == app && this.creator == creator && this.program == program
    {
      this.c, this.app, this.creator, this.program := c, app, creator, program;
      storage := new AppStorage();
      booted, programHash, currentSet, messageFee, upgradeHash := false, [], 0, 0, [];
      log, first, next, sets, ends, published := [], 0, 0, map[], map[], [];
    }

    ghost function View(now: nat): VerifyVaa.View
      reads this, storage
    {
      VerifyVaa.View(c, app, programHash, now, storage.local)
    }

    /** Any account may opt in once; its blob starts blank. */
    method Optin(t: Txn, seed: Txn, seedAmount: nat) returns (ok: bool)
      requires Valid()
      modifies storage
      ensures Valid() && SameGlobals() && log == old(log)
      ensures ok <==>
        && seed.kind == Payment && seed.amount == seedAmount && seed.receiver == t.sender
        && t.kind == ApplicationCall && t.completion == OptIn && t.applicationId == app.id
        && t.rekeyTo == app.address && t.args == [] && t.sender !in old(storage.local)
      ensures !ok ==> storage.local == old(storage.local)
      ensures ok ==> t.sender in storage.local
                     && Flat(storage.local[t.sender]) == Zeros(MAX_BYTES)
                     && storage.local == old(storage.local)[t.sender := storage.local[t.sender]]
    {
      if !OptinOk(app.id, app.address, t, seed, seedAmount) { return false; }
      hide SigAddress, CollisionFree, BooksOk;
      ghost var before := storage.local;
      ok := storage.Zero(t.sender);
      if ok {
        OptinKeeps(c, app, before, t.sender, storage.local[t.sender], Book());
      }
    }

    /** verifyVAA reads the state and changes nothing. */
    method Verify(group: seq<Txn>, gi: nat, now: nat) returns (ok: bool)
      requires Valid() && gi < |group| && ProgramSigned(c, program, group)
      requires forall i :: 0 <= i < |group| ==> group[i].sender != []
      ensures ok <==> VerifyVaa.Accepted(View(now), group, gi)
    {
      ok := VerifyVaa.Run(storage, View(now), c, app, programHash, now, group, gi);
    }

    /** Consumes the message of a VAA, or refuses it. */
    method Consume(vaa: bytes, account: bytes) returns (ok: bool)
      requires Valid()
      modifies this`log, storage
      ensures Valid() && SameGlobals()
      ensures ok <==> Fresh(c, app, old(storage.local), Consumed(old(log)), vaa, account)
      ensures !ok ==> Unchanged()
      ensures ok ==> log == old(log) + [MessageOf(vaa)] && MessageOf(vaa) !in old(log)
      ensures ok ==> account in storage.local && storage.local == old(storage.local)[account := storage.local[account]]
                     && NoSet(c, app, account)
    {
      hide SigAddress, CollisionFree, Bitmaps, Rotation, CountersOk;
      ghost var before := storage.local;
      ok := CheckForDuplicate(c, app, storage, vaa, account, true, Consumed(log));
      if ok {
        ConsumeKeeps(c, app, before, MessageOf(vaa), storage.local[account], Book());
        LogGrows(log, MessageOf(vaa));
        log := log + [MessageOf(vaa)];
      }
    }

    /** Writes a set into its blob, stamps the expiry of another one, and tags the new blob. */
    method StoreSet(newSet: bytes, oldSet: bytes, blob: bytes, now: nat) returns (ok: bool)
      requires storage.Valid() && |blob| > 0 && |blob| == 1 + 20 * (blob[0] as int) && blob[0] > 0
      modifies storage
      ensures storage.Valid()
      ensures ok <==>
        && newSet in old(storage.local) && KeyBlob(blob)
        && (newSet != oldSet ==> oldSet in old(storage.local) && now + DAY < U64)
      ensures !ok ==> storage.local == old(storage.local)
      ensures ok ==> Stored(old(storage.local), storage.local, newSet, oldSet, blob, now)
    {
      var before := storage.local;
      var written := storage.Write(newSet, 0, blob);
      if written == None { return false; }
      if newSet != oldSet {
        if now + DAY >= U64 {
          storage.local := before;
          return false;
        }
        var stamped := storage.Write(oldSet, EXPIRY, FromInt(now + DAY, 8));
        if stamped == None {
          storage.local := before;
          return false;
        }
      }
      ok := storage.SetMeta(newSet, GUARDIAN);
    }

    /** The sets on record are those from `first` to `next`, their blobs are there, and all but the last have an end. */
    lemma SetBounds(i: nat)
      requires Valid()
      ensures (forall k :: k in sets <==> first <= k < next) && (forall k :: k in ends <==> first <= k && k + 1 < next)
      ensures Bounded(Sets()) && (first == next ==> Sets() == Record(0, 0, map[], map[]))
      ensures i in sets ==> SetAddress(c, app, i) in storage.local
    {
      hide Image, KeyBlob, Flat;
      assert i in sets ==> Installed(c, app, storage.local, sets[i], End(Sets(), i), i);
      assert first == next ==> sets == map[] && ends == map[];
    }

    /** The first set, at boot, with its own blob in both account slots. */
    method InstallFirst(index: nat, blob: bytes, now: nat) returns (ok: bool)
      requires Valid() && booted && first == next && index < U32 && |blob| > 0
      requires |blob| == 1 + 20 * (blob[0] as int) && blob[0] > 0
      modifies this`currentSet, this`first, this`next, this`sets, this`ends, storage
      ensures Valid() && ok == (SetAddress(c, app, index) in old(storage.local) && KeyBlob(blob))
      ensures !ok ==> Unchanged()
      ensures ok ==> currentSet == index && Sets() == Record(index, index + 1, map[index := blob], map[])
      ensures ok ==> var a := SetAddress(c, app, index); Stored(old(storage.local), storage.local, a, a, blob, now)
    {
      hide SigAddress, CollisionFree, BooksOk, Stored;
      ghost var before := storage.local;
      var a := SetAddress(c, app, index);
      ok := StoreSet(a, a, blob, now);
      if ok {
        BootKeeps(c, app, before, storage.local, index, blob, now, Book());
        currentSet := index;
        first, next, sets, ends := index, index + 1, map[index := blob], map[];
      }
    }

    /** A later set: it must be the next one, and the current one starts to expire. */
    method InstallNext(newSet: bytes, oldSet: bytes, blob: bytes, now: nat) returns (ok: bool)
      requires Valid() && first < next && currentSet + 1 < U32 && |blob| > 0
      requires |blob| == 1 + 20 * (blob[0] as int) && blob[0] > 0
      requires newSet == SetAddress(c, app, next) && oldSet == SetAddress(c, app, next - 1)
      modifies this`currentSet, this`next, this`sets, this`ends, storage
      ensures Valid() && ok == (newSet in old(storage.local) && KeyBlob(blob) && now + DAY < U64)
      ensures !ok ==> Unchanged()
      ensures ok ==> currentSet == old(currentSet) + 1 && Sets() == Superseded(old(Sets()), blob, now + DAY)
      ensures ok ==> Stored(old(storage.local), storage.local, newSet, oldSet, blob, now)
    {
      hide SigAddress, CollisionFree, BooksOk, Stored, KeyBlob;
      ghost var before := storage.local;
      SlotsDoNotAlias(c, app, next, GUARDIAN, next - 1, GUARDIAN);
      SetBounds(next - 1);
      ok := StoreSet(newSet, oldSet, blob, now);
      if ok {
        RotateKeeps(c, app, before, storage.local, newSet, oldSet, blob, now, Book());
        currentSet := currentSet + 1;
        sets, ends := sets[next := blob], ends[next - 1 := now + DAY];
        next := next + 1;
      }
    }

    /** What verifyVAA has established about the guardian set account of a governance transaction. */
    ghost predicate SetVerified(t: Txn)
      requires Sane()
      reads storage
    {
      && |t.args| > 1 && |t.args[1]| >= 6 && |t.accounts| > 2
      && t.accounts[2] == SetAddress(c, app, ToInt(t.args[1][1..5]))
      && t.accounts[2] in storage.local && storage.local[t.accounts[2]].meta == Some(GUARDIAN)
    }

    /** A verified set is one of the installed ones. */
    lemma VerifiedSetIndex(t: Txn)
      requires Valid() && SetVerified(t)
      ensures first <= ToInt(t.args[1][1..5]) < next
    {
      TaggedIndex(c, app, storage.local, Sets(), ToInt(t.args[1][1..5]));
    }

    ghost predicate Allowed(isBoot: bool, t: Txn, now: nat)
      requires Sane() && |t.args| > 1
      reads this, storage
    {
      AllowedIn(c, app, currentSet, storage.local, isBoot, t, now)
    }

    /** The state after an accepted action; a new set touches its own blob and that of the set before it. */
    twostate predicate Effect(isBoot: bool, a: Action, now: nat)
      requires Sane() && old(storage.Valid()) && storage.Valid()
      reads this, storage
    {
      && upgradeHash == (if a.Upgrade? then a.hash else old(upgradeHash))
      && messageFee == (if a.SetFee? then a.fee else old(messageFee))
      && currentSet == (if a.NewSet? then a.index else old(currentSet))
      && Sets() == RecordAfter(isBoot, a, old(Sets()), now)
      && (!a.NewSet? ==> storage.local == old(storage.local))
      && (a.NewSet? ==>
            && next == a.index + 1
            && Stored(old(storage.local), storage.local, SetAddress(c, app, a.index),
                      SetAddress(c, app, if isBoot then a.index else old(currentSet)), a.blob, now))
    }

    /** A new guardian set: the account must be its blob, and after boot it must be the next set. */
    method NewGuardianSet(isBoot: bool, t: Txn, a: Action, now: nat) returns (ok: bool)
      requires Valid() && |t.args| > 1 && a.NewSet? && ActionOf(t.args[1]) == Some(a)
      requires isBoot ==> booted && first == next && (|t.accounts| > 3 ==> t.accounts[2] == t.accounts[3])
      requires !isBoot ==> SetVerified(t)
      requires currentSet != 0 ==> ToInt(t.args[1][1..5]) == currentSet
      modifies this`currentSet, this`first, this`next, this`sets, this`ends, storage
      ensures Valid() && ok == old(Allowed(isBoot, t, now))
      ensures !ok ==> Unchanged()
      ensures ok ==> Effect(isBoot, a, now)
    {
      hide SigAddress, CollisionFree, BooksOk, ActionOf, Stored, KeyBlob;
      ParsedBlob(t.args[1], a);
      ParsedCount(t.args[1], a);
      if |t.accounts| < 4 || t.accounts[3] != SetAddress(c, app, a.index) { return false; }
      if isBoot {
        ok := InstallFirst(a.index, a.blob, now);
      } else {
        VerifiedSetIndex(t);
        assert t.accounts[2] == SetAddress(c, app, currentSet) && currentSet == next - 1;
        if t.accounts[3] == t.accounts[2] || a.index != currentSet + 1 {
          SlotsDoNotAlias(c, app, a.index, GUARDIAN, currentSet, GUARDIAN);
          return false;
        }
        ok := InstallNext(t.accounts[3], t.accounts[2], a.blob, now);
      }
    }

    /** hdlGovernance: reads the action at fixed offsets and applies it; a fee transfer is paid out. */
    method HdlGovernance(isBoot: bool, t: Txn, now: nat) returns (ok: bool, payment: Option<(nat, bytes)>)
      requires Valid() && |t.args| > 1
      requires isBoot ==> booted && first == next && (|t.accounts| > 3 ==> t.accounts[2] == t.accounts[3])
      requires !isBoot ==> SetVerified(t)
      modifies this`currentSet, this`first, this`next, this`sets, this`ends, this`messageFee, this`upgradeHash, storage
      ensures Valid() && ok == old(Allowed(isBoot, t, now))
      ensures !ok ==> Unchanged()
      ensures ok ==> Effect(isBoot, ActionOf(t.args[1]).value, now)
      ensures payment == if ok then PaymentOf(ActionOf(t.args[1]).value) else None
    {
      hide SigAddress, CollisionFree, BooksOk;
      payment := None;
      var vaa := t.args[1];
      if currentSet != 0 && (|vaa| < 6 || ToInt(vaa[1..5]) != currentSet) { return false, None; }
      if !IsGovernance(vaa) { return false, None; }
      var action := ParseAction(vaa);
      if action == None { return false, None; }
      ok := true;
      match action.value {
        case Upgrade(hash) => upgradeHash := hash;
        case NewSet(_, _, _) => ok := NewGuardianSet(isBoot, t, action.value, now);
        case SetFee(fee) => messageFee := fee;
        case Transfer(amount, destination) => payment := Some((amount, destination));
      }
    }

    ghost function Global(): Globals
      reads this
    {
      Globals(booted, programHash, currentSet, messageFee, upgradeHash)
    }

    ghost function Now(): State
      reads this, storage
    {
      State(Global(), storage.local, Past())
    }

    /** The applied action shows in the state. */
    ghost predicate Shows(vaa: bytes)
      reads this
    {
      ShowsIn(vaa, Global(), Sets())
    }

    /** The creator boots with the set's own blob in both slots and with the hash of the real program. */
    ghost predicate ProperBoot(t: Txn)
    {
      && (|t.accounts| > 3 ==> t.accounts[2] == t.accounts[3])
      && (|t.args| > 2 ==> t.args[2] == program)
    }

    /** init: once, by the creator; consumes the boot VAA and applies it without signatures. */
    method Init(t: Txn, now: nat) returns (ok: bool, payment: Option<(nat, bytes)>)
      requires Valid() && ProperBoot(t)
      modifies this, storage
      ensures Valid()
      ensures !ok ==> Unchanged()
      ensures ok <==>
        && |t.args| > 2 && |t.accounts| > 1 && t.sender == creator && !old(booted) && old(Allowed(true, t, now))
        && Fresh(c, app, old(storage.local), Consumed(old(log)), t.args[1], t.accounts[1])
      ensures ok ==>
        booted && log == old(log) + [MessageOf(t.args[1])] && Shows(t.args[1]) && published == old(published)
      ensures ok ==> var a := ActionOf(t.args[1]).value;
                && payment == PaymentOf(a) && old(Sets()) == Record(0, 0, map[], map[])
                && Sets() == RecordAfter(true, a, old(Sets()), now)
                && Framed(old(storage.local), storage.local, {t.accounts[1]} + Written(c, app, a, currentSet))
    {
      hide SigAddress, CollisionFree, BooksOk, ActionOf, Framed, Stored, WellFormed, Distinct, Consumed, KeccakWidth,
        SetAddress;
      if |t.args| < 3 || |t.accounts| < 2 || t.sender != creator || booted { return false, None; }
      var globals, saved := Globals(booted, programHash, currentSet, messageFee, upgradeHash), storage.local;
      ghost var past := Past();
      SetBounds(0);
      ok := Consume(t.args[1], t.accounts[1]);
      payment := None;
      if !ok { return; }
      ghost var middle := storage.local;
      booted, programHash := true, t.args[2];
      ok, payment := HdlGovernance(true, t, now);
      if ok {
        ActionFrame(c, app, saved, middle, storage.local, t.accounts[1], ActionOf(t.args[1]).value, currentSet, now);
      } else {
        Restore(globals, saved, past);
      }
    }

    /** The transaction before `gi` ran before it; if it was a verifyVAA call, it was approved. */
    ghost predicate PreviousApproved(group: seq<Txn>, gi: nat, now: nat)
      requires Valid() && gi <= |group|
      reads this, storage
    {
      0 < gi && IsVerify(app.id, group[gi - 1]) ==> VerifyVaa.Accepted(View(now), group, gi - 1)
    }

    lemma FollowedSet(group: seq<Txn>, gi: nat, now: nat)
      requires Valid() && gi < |group| && PreviousApproved(group, gi, now) && FollowsVerify(app.id, group, gi)
      ensures VerifyVaa.Accepted(View(now), group, gi - 1) && SetVerified(group[gi])
    {
    }

    /**
     * Whatever governance applies was signed by a quorum of the guardian set that is current at that moment: the
     * VAA names it, and the signatures recover to the keys stored for it.
     */
    lemma SignedByCurrentSet(group: seq<Txn>, gi: nat, now: nat)
      requires Valid() && gi < |group| && PreviousApproved(group, gi, now) && FollowsVerify(app.id, group, gi)
      requires ProgramSigned(c, program, group) && (forall i :: 0 <= i < |group| ==> group[i].sender != [])
      requires Allowed(false, group[gi], now)
      ensures SetAddress(c, app, currentSet) in storage.local && first < next
      ensures var vaa := group[gi].args[1];
        && |vaa| > 5 && ToInt(vaa[1..5]) == currentSet
        && currentSet in sets && KeyBlob(sets[currentSet])
        && Flat(storage.local[SetAddress(c, app, currentSet)]) == Image(sets[currentSet], None)
        && VerifyVaa.QuorumSigned(c, vaa, Flat(storage.local[SetAddress(c, app, currentSet)]))
    {
      hide SigAddress, CollisionFree, Bitmaps, ActionOf, VerifyVaa.QuorumSigned;
      FollowedSet(group, gi, now);
      VerifiedSetIndex(group[gi]);
      VerifyVaa.Soundness(View(now), group, gi - 1);
      SetsInReachableState(currentSet);
      assert End(Sets(), currentSet) == None;
    }

    /** When a governance call is accepted: after a verified VAA, allowed, and fresh. */
    ghost predicate Governable(group: seq<Txn>, gi: nat, now: nat)
      requires Sane() && gi < |group|
      reads this, storage
    {
      GovernableIn(c, app, Now(), group, gi, now)
    }

    twostate predicate Governed(t: Txn, now: nat)
      reads this
    {
      GovernedIn(t, now, old(Past()), Global(), Past())
    }

    /** governance: consumes the VAA, insists on a verified VAA just before, and applies it. */
    method Governance(group: seq<Txn>, gi: nat, now: nat) returns (ok: bool, payment: Option<(nat, bytes)>)
      requires Valid() && gi < |group| && PreviousApproved(group, gi, now)
      modifies this, storage
      ensures Valid()
      ensures !ok ==> Unchanged()
      ensures ok == old(Governable(group, gi, now))
      ensures ok ==> old(VerifyVaa.Accepted(View(now), group, gi - 1)) && old(first) < old(next)
      ensures ok ==> Governed(group[gi], now)
      ensures payment == if ok then PaymentOf(ActionOf(group[gi].args[1]).value) else None
      ensures ok ==> var a := ActionOf(group[gi].args[1]).value;
                Framed(old(storage.local), storage.local, {group[gi].accounts[1]} + Written(c, app, a, old(currentSet)))
    {
      hide SigAddress, CollisionFree, BooksOk, ActionOf, Framed, Stored, VerifyVaa.Accepted, SetAddress, Distinct,
        Consumed, KeccakWidth, WellFormed;
      var t := group[gi];
      if |t.args| < 2 || |t.accounts| < 2 || !FollowsVerify(app.id, group, gi) { return false, None; }
      var globals, saved := Globals(booted, programHash, currentSet, messageFee, upgradeHash), storage.local;
      ghost var past := Past();
      FollowedSet(group, gi, now);
      ok := Consume(t.args[1], t.accounts[1]);
      payment := None;
      if !ok { return; }
      assert t.accounts[2] != t.accounts[1];
      VerifiedSetIndex(t);
      ghost var middle, current := storage.local, currentSet;
      ok, payment := HdlGovernance(false, t, now);
      if ok {
        ActionFrame(c, app, saved, middle, storage.local, t.accounts[1], ActionOf(t.args[1]).value, current, now);
      } else {
        Restore(globals, saved, past);
      }
    }

    /** The counter of messages published by a sender. */
    ghost function Published(sender: bytes): nat
      requires Sane() && storage.Valid()
      reads storage
    {
      Counter(c, app, storage.local, sender)
    }

    /** Adds one to the counter in a blob and tags the blob. */
    method Increment(account: bytes) returns (number: Option<nat>)
      requires storage.Valid()
      modifies storage
      ensures storage.Valid()
      ensures number.Some? <==> account in old(storage.local) && ToInt(Flat(old(storage.local)[account])[..8]) + 1 < U64
      ensures number == None ==> storage.local == old(storage.local)
      ensures number.Some? ==>
        && number.value == ToInt(Flat(old(storage.local)[account])[..8]) + 1 && account in storage.local
        && storage.local == old(storage.local)[account := storage.local[account]]
        && storage.local[account].meta == Some(PUBLISH_MESSAGE)
        && Flat(storage.local[account])[..8] == FromInt(number.value, 8)
    {
      hide ToInt, FromInt, Splice, Flat;
      var counter := storage.Read(account, 0, 8);
      if counter == None { return None; }
      assert counter.value == Flat(storage.local[account])[..8];
      if ToInt(counter.value) + 1 >= U64 { return None; }
      var sequence := FromInt(ToInt(counter.value) + 1, 8);
      ghost var before := Flat(storage.local[account]);
      var written := storage.Write(account, 0, sequence);
      var tagged := storage.SetMeta(account, PUBLISH_MESSAGE);
      CounterIs(before, Flat(storage.local[account]), sequence);
      number := Some(ToInt(counter.value) + 1);
    }

    /** Advances a sender's counter, if the account is its blob, and logs the new number. */
    method Advance(sender: bytes, account: bytes) returns (logged: Option<bytes>)
      requires Valid() && |sender| == 32 && account == SigAddress(c, app, 0, sender)
      modifies this`published, storage
      ensures Valid() && SameGlobals() && log == old(log)
      ensures logged.Some? <==> account in old(storage.local) && old(Published(sender)) + 1 < U64
      ensures logged == None ==> Unchanged()
      ensures logged.Some? ==>
        && var number := old(Published(sender)) + 1;
        && logged.value == FromInt(number, 8) && Published(sender) == number
           && published == old(published) + [(sender, number)]
        && account in storage.local && storage.local == old(storage.local)[account := storage.local[account]]
    {
      hide SigAddress, CollisionFree, BooksOk, WellFormed, ToInt, FromInt, Flat;
      ghost var before := storage.local;
      var number := Increment(account);
      if number == None { return None; }
      PublishKeeps(c, app, before, sender, storage.local[account], Book(), number.value);
      Reads(number.value, 8);
      published := published + [(sender, number.value)];
      logged := Some(FromInt(number.value, 8));
    }

    /** The message fee, if there is one, was paid to the contract by the transaction before. */
    predicate FeePaid(group: seq<Txn>, gi: nat)
      requires gi < |group|
      reads this
    {
      messageFee > 0 ==>
        && 0 < gi
        && var pmt := group[gi - 1];
        && pmt.kind == Payment && pmt.amount >= messageFee && pmt.receiver == app.address && pmt.rekeyTo == ZERO_ADDRESS
    }

    /** publishMessage: pays the fee, advances the sender's counter by one and logs it. */
    method PublishMessage(group: seq<Txn>, gi: nat) returns (logged: Option<bytes>)
      requires Valid() && gi < |group| && |group[gi].sender| == 32
      modifies this`published, storage
      ensures Valid() && SameGlobals() && log == old(log)
      ensures logged.Some? <==>
        && var t := group[gi];
        && |t.accounts| > 1 && t.accounts[1] == SigAddress(c, app, 0, t.sender) && t.accounts[1] in old(storage.local)
        && old(Published(t.sender)) + 1 < U64
        && (messageFee > 0 ==>
              && 0 < gi && group[gi - 1].kind == Payment && group[gi - 1].amount >= messageFee
              && group[gi - 1].receiver == app.address && group[gi - 1].rekeyTo == ZERO_ADDRESS)
      ensures logged == None ==> Unchanged()
      ensures logged.Some? ==>
        && var sender, account := group[gi].sender, group[gi].accounts[1]; var number := old(Published(sender)) + 1;
        && logged.value == FromInt(number, 8) && Published(sender) == number
           && published == old(published) + [(sender, number)]
        && account in storage.local && storage.local == old(storage.local)[account := storage.local[account]]
    {
      hide SigAddress, CollisionFree, BooksOk;
      var t := group[gi];
      if |t.accounts| < 2 || t.accounts[1] != SigAddress(c, app, 0, t.sender) { return None; }
      if !FeePaid(group, gi) { return None; }
      logged := Advance(t.sender, t.accounts[1]);
    }

    // ---- Groups and runs ----

    /** What the environment guarantees of a group: real senders, a proper boot, and the program's hash. */
    ghost predicate Proper(group: seq<Txn>)
      requires Sane()
    {
      && ProgramSigned(c, program, group)
      && forall i :: 0 <= i < |group| ==>
           && |group[i].sender| == 32
           && (Calls(group[i], INIT) && group[i].sender == creator ==> ProperBoot(group[i]))
    }

    /** One transaction of the group, routed as the approval program does. */
    method Execute(group: seq<Txn>, gi: nat, now: nat, seedAmount: nat) returns (ok: bool)
      requires Valid() && gi < |group| && Proper(group) && PreviousApproved(group, gi, now)
      modifies this, storage
      ensures Valid() && Progress()
      ensures ok ==> PreviousApproved(group, gi + 1, now)
      ensures !ok ==> Unchanged()
      ensures ok ==> log == old(log) + Consumption(app.id, group[gi])
      ensures Stepped(c, app, old(Now()), Now(), group, gi, now, ok)
      ensures published == old(published) + if ok && Routed(app.id, group[gi], PUBLISH_MESSAGE)
                           then [(group[gi].sender, old(Published(group[gi].sender)) + 1)] else []
      ensures Routed(app.id, group[gi], PUBLISH_MESSAGE) ==> ok == old(Publishable(group, gi))
      ensures Routed(app.id, group[gi], INIT) ==> ok == old(Bootable(group[gi], now)) && (ok ==> booted)
      ensures Joins(app.id, group[gi]) ==>
        ok == old(Joinable(group, gi, seedAmount)) && (ok ==> Blank(group[gi].sender))
    {
      hide SigAddress, CollisionFree, BooksOk, ActionOf, VerifyVaa.Accepted, Grows, Framed, Counter, GovernableIn,
        GovernedIn, Publishable, Bootable, Joinable, Blank;
      GrowsNot(Past());
      var t := group[gi];
      if t.kind != ApplicationCall || t.applicationId != app.id { return true; }
      if t.completion == OptIn {
        ok := Join(group, gi, seedAmount);
        return;
      }
      if t.completion != NoOp || |t.args| == 0 { return false; }
      var name := t.args[0];
      if name == PUBLISH_MESSAGE {
        ok := Publish(group, gi);
      } else if name == NOP {
        ok := true;
      } else if name == INIT {
        ok := Boot(t, now);
      } else if name == VERIFY_SIGS {
        ok := t.sender == programHash;
      } else if name == VERIFY_VAA {
        ok := Verify(group, gi, now);
      } else if name == GOVERNANCE {
        ok := Govern(group, gi, now);
      } else {
        ok := false;
      }
    }

    /** When publishMessage succeeds: the sender's own counter, not exhausted, and the fee paid just before. */
    ghost predicate Publishable(group: seq<Txn>, gi: nat)
      requires Valid() && gi < |group| && |group[gi].sender| == 32
      reads this, storage
    {
      var t := group[gi];
      && |t.accounts| > 1 && t.accounts[1] == SigAddress(c, app, 0, t.sender) && t.accounts[1] in storage.local
      && Published(t.sender) + 1 < U64
      && (messageFee > 0 ==>
            && 0 < gi && group[gi - 1].kind == Payment && group[gi - 1].amount >= messageFee
            && group[gi - 1].receiver == app.address && group[gi - 1].rekeyTo == ZERO_ADDRESS)
    }

    /** When init succeeds: by the creator, once, with a fresh VAA that is allowed. */
    ghost predicate Bootable(t: Txn, now: nat)
      requires Sane()
      reads this, storage
    {
      && |t.args| > 2 && |t.accounts| > 1 && t.sender == creator && !booted && Allowed(true, t, now)
      && Fresh(c, app, storage.local, Consumed(log), t.args[1], t.accounts[1])
    }

    /** When an account may join: seeded by the transaction before, handed over to the application, and new. */
    ghost predicate Joinable(group: seq<Txn>, gi: nat, seedAmount: nat)
      requires gi < |group|
      reads this, storage
    {
      && 0 < gi && var t, seed := group[gi], group[gi - 1];
      && seed.kind == Payment && seed.amount == seedAmount && seed.receiver == t.sender
      && t.rekeyTo == app.address && t.args == [] && t.sender !in storage.local
    }

    ghost predicate Blank(account: bytes)
      requires storage.Valid()
      reads this, storage
    {
      account in storage.local && Flat(storage.local[account]) == Zeros(MAX_BYTES)
    }

    /** Opting in, as a step of a run. */
    method Join(group: seq<Txn>, gi: nat, seedAmount: nat) returns (ok: bool)
      requires Valid() && gi < |group| && Joins(app.id, group[gi])
      modifies storage
      ensures Valid() && SameGlobals() && Past() == old(Past())
      ensures !ok ==> Unchanged()
      ensures ok == old(Joinable(group, gi, seedAmount)) && (ok ==> Blank(group[gi].sender))
    {
      hide SigAddress, CollisionFree, BooksOk;
      if gi == 0 { return false; }
      ok := Optin(group[gi], group[gi - 1], seedAmount);
    }

    /** publishMessage, as a step of a run. */
    method Publish(group: seq<Txn>, gi: nat) returns (ok: bool)
      requires Valid() && gi < |group| && |group[gi].sender| == 32
      modifies this`published, storage
      ensures Valid() && Progress() && SameGlobals() && log == old(log)
      ensures !ok ==> Unchanged()
      ensures ok == old(Publishable(group, gi))
      ensures ok ==> published == old(published) + [(group[gi].sender, old(Published(group[gi].sender)) + 1)]
    {
      hide SigAddress, CollisionFree, BooksOk, Grows, Counter;
      GrowsNot(Past());
      var logged := PublishMessage(group, gi);
      ok := logged.Some?;
      if ok {
        GrowsByMessage(old(Past()), Past(), (group[gi].sender, old(Published(group[gi].sender)) + 1));
      }
    }

    /** init, as a step of a run. */
    method Boot(t: Txn, now: nat) returns (ok: bool)
      requires Valid() && (t.sender == creator ==> ProperBoot(t))
      modifies this, storage
      ensures Valid() && Progress() && published == old(published)
      ensures !ok ==> Unchanged()
      ensures ok == old(Bootable(t, now)) && (ok ==> booted)
      ensures ok ==> |t.args| > 1 && HasMessage(t.args[1]) && log == old(log) + [MessageOf(t.args[1])]
    {
      hide SigAddress, CollisionFree, BooksOk, ActionOf, Grows, Framed, WellFormed;
      SetBounds(0);
      GrowsNot(Past());
      if t.sender != creator { return false; }
      var payment;
      ok, payment := Init(t, now);
      if ok {
        GrowsByAction(old(Past()), Past(), MessageOf(t.args[1]));
      }
    }

    /** governance, as a step of a run. */
    method Govern(group: seq<Txn>, gi: nat, now: nat) returns (ok: bool)
      requires Valid() && gi < |group| && PreviousApproved(group, gi, now)
      modifies this, storage
      ensures Valid() && Progress()
      ensures !ok ==> Unchanged()
      ensures ok == old(Governable(group, gi, now))
      ensures ok ==> Governed(group[gi], now)
      ensures published == old(published)
      ensures ok ==>
        |group[gi].args| > 1 && HasMessage(group[gi].args[1]) && log == old(log) + [MessageOf(group[gi].args[1])]
    {
      hide SigAddress, CollisionFree, BooksOk, ActionOf, VerifyVaa.Accepted, Grows, Framed, WellFormed;
      SetBounds(0);
      GrowsNot(Past());
      var payment;
      ok, payment := Governance(group, gi, now);
      if ok {
        ghost var a := ActionOf(group[gi].args[1]).value;
        assert a.NewSet? ==> Sets() == Superseded(old(Sets()), a.blob, now + DAY);
        GrowsByAction(old(Past()), Past(), MessageOf(group[gi].args[1]));
      }
    }

    ghost function Past(): History
      reads this
    {
      History(log, published, Sets(), booted)
    }

    twostate predicate Progress()
      reads this
    {
      Grows(old(Past()), Past())
    }

    /** The transactions of a group in order, up to the first that is refused. `g` is any position. */
    method ExecuteAll(group: seq<Txn>, now: nat, seedAmount: nat, ghost g: nat) returns (ok: bool)
      requires Valid() && Proper(group)
      modifies this, storage
      ensures Valid() && Progress()
      ensures ok ==> log == old(log) + GroupMessages(app.id, group, |group|)
      ensures OneAction(app.id, group, g) ==> ok == ActionAccepted(c, app, old(Now()), group, g, now)
      ensures OneAction(app.id, group, g) && ok ==> Governed(group[g], now)
    {
      hide SigAddress, CollisionFree, BooksOk, VerifyVaa.Accepted, Grows, Proper, GovernableIn, GovernedIn, QuietIn,
        Stepped, OneAction, Consumption, Distinct, WellFormed, Consumed, KeccakWidth, Quiet;
      GrowsNot(Past());
      ghost var one := OneAction(app.id, group, g);
      ghost var before := Now();
      if one { OneInside(app.id, group, g); }
      for gi := 0 to |group|
        invariant Valid() && Progress() && PreviousApproved(group, gi, now)
        invariant log == old(log) + GroupMessages(app.id, group, gi)
        invariant one ==> Halfway(c, app, before, Now(), group, g, gi, now)
      {
        ghost var past, state := Past(), Now();
        ok := Execute(group, gi, now, seedAmount);
        GrowsOn(old(Past()), past, Past());
        if one { HalfwayNext(c, app, before, state, Now(), group, g, gi, now, ok); }
        if !ok { return; }
      }
      ok := true;
    }

    /** A group is atomic: if one transaction is refused, nothing happened. `g` is any position. */
    method ExecuteGroup(group: seq<Txn>, now: nat, seedAmount: nat, ghost g: nat) returns (ok: bool)
      requires Valid() && Proper(group)
      modifies this, storage
      ensures Valid() && Progress()
      ensures !ok ==> Unchanged()
      ensures ok ==> log == old(log) + GroupMessages(app.id, group, |group|)
      ensures OneAction(app.id, group, g) ==> ok == ActionAccepted(c, app, old(Now()), group, g, now)
      ensures OneAction(app.id, group, g) && ok ==> Governed(group[g], now)
    {
      hide SigAddress, CollisionFree, BooksOk, Grows, Proper, WellFormed, Distinct, Consumed, ValidApp, KeccakWidth,
        GroupMessages, GovernedIn, ActionAccepted;
      GrowsNot(Past());
      var globals, local := Globals(booted, programHash, currentSet, messageFee, upgradeHash), storage.local;
      ghost var past := Past();
      ok := ExecuteAll(group, now, seedAmount, g);
      if !ok {
        Restore(globals, local, past);
      }
    }

    /** What the ledger does when a group is refused. */
    method Restore(g: Globals, local: map<bytes, Local>, ghost past: History)
      requires g.booted == past.booted
      modifies this, storage
      ensures Globals(booted, programHash, currentSet, messageFee, upgradeHash) == g && storage.local == local
      ensures Past() == past
    {
      booted, programHash, currentSet := g.booted, g.programHash, g.currentSet;
      messageFee, upgradeHash := g.messageFee, g.upgradeHash;
      storage.local := local;
      log, published := past.log, past.published;
      first, next, sets, ends := past.record.first, past.record.next, past.record.sets, past.record.ends;
    }

    /**
     * Any run: groups in any order, accepted or refused. The invariant holds at the end, so no message was
     * consumed twice, the bitmaps are the log, and the sets rotated one by one.
     */
    method Run(groups: seq<(seq<Txn>, nat)>, seedAmount: nat) returns (accepted: seq<bool>)
      requires Valid() && forall k :: 0 <= k < |groups| ==> Proper(groups[k].0)
      modifies this, storage
      ensures Valid() && Progress() && |accepted| == |groups|
      ensures log == old(log) + Kept(Parts(app.id, groups), accepted, |groups|)
      ensures NoRepeat(old(log), Parts(app.id, groups), accepted)
    {
      hide SigAddress, CollisionFree, BooksOk, Proper, Grows, GroupMessages, GovernedIn, ActionAccepted;
      GrowsNot(Past());
      ghost var parts := Parts(app.id, groups);
      accepted := [];
      for k := 0 to |groups|
        invariant Valid() && Progress() && |accepted| == k
        invariant log == old(log) + Kept(parts, accepted, k)
      {
        ghost var past := Past();
        var ok := ExecuteGroup(groups[k].0, groups[k].1, seedAmount, 0);
        GrowsOn(old(Past()), past, Past());
        KeptSame(parts, accepted, accepted + [ok], k);
        accepted := accepted + [ok];
      }
      EachAcceptedOnce(old(log), parts, accepted);
    }

    /** What the invariant says about the guardian sets in every reachable state. */
    lemma SetsInReachableState(i: nat)
      requires Valid() && SetAddress(c, app, i) in storage.local
      ensures var l := storage.local[SetAddress(c, app, i)];
        && (l.meta == Some(GUARDIAN) <==> first <= i < next) && (i in sets <==> first <= i < next)
        && (i in ends <==> i in sets && i != currentSet) && (first < next ==> currentSet == next - 1)
        && (i in sets ==> KeyBlob(sets[i]) && Flat(l) == Image(sets[i], End(Sets(), i)))
        && (i in ends ==> 0 < Expiry(Flat(l)) == ends[i])
        && (i in sets && |sets[i]| <= EXPIRY ==>
              Flat(l)[..|sets[i]|] == sets[i] && (Expiry(Flat(l)) == 0 <==> i == currentSet))
    {
      hide SigAddress, CollisionFree, Bitmaps, CountersOk, Image, KeyBlob, Expiry, Flat;
      TaggedIndex(c, app, storage.local, Sets(), i);
      if i in sets {
        ImageHolds(sets[i], End(Sets(), i));
        FreshExpiry(sets[i]);
        if i in ends { StampedExpiry(sets[i], ends[i]); }
      }
    }

    /** A set ends 86400 seconds after the update that superseded it. */
    lemma SupersessionEnds(r: Record, a: Action, now: nat)
      requires a.NewSet? && 0 < r.next
      ensures var s := RecordAfter(false, a, r, now);
        s.ends[r.next - 1] == now + 86400 && s.sets[r.next] == a.blob && s.next == r.next + 1
    {
    }

    /** From one day after it was superseded, no VAA is verified against a set. */
    lemma SupersededExpires(t: Txn, now: nat)
      requires Valid() && |t.args| > 1 && |t.args[1]| >= 6
      requires var i := ToInt(t.args[1][1..5]); i in ends && now >= ends[i]
      ensures !VerifyVaa.SetOk(View(now), t)
    {
      hide SigAddress, CollisionFree, BooksOk, ToInt, KeyBlob;
      var i := ToInt(t.args[1][1..5]);
      if VerifyVaa.SetOk(View(now), t) {
        SetsInReachableState(i);
      }
    }

    /** The numbers a sender's messages got are 1, 2, 3 and so on, each exactly once and in this order. */
    lemma SequencesInReachableState(sender: bytes, number: nat) returns (i: nat)
      requires Valid() && |sender| == 32 && 1 <= number <= Published(sender)
      ensures i < |published| && published[i] == (sender, number)
      ensures forall j :: 0 <= j < |published| && published[j].0 == sender ==>
                && (published[j].1 < number <==> j < i) && 1 <= published[j].1 <= Published(sender)
    {
      hide SigAddress, CollisionFree, Rotation, Bitmaps, CountersOk, Count, Numbered, Counter, WellFormed;
      CounterIsCount(c, app, storage.local, published, sender);
      i := EachNumberOnce(published, sender, number);
      forall j | 0 <= j < |published| && published[j].0 == sender
        ensures (published[j].1 < number <==> j < i) && 1 <= published[j].1 <= Published(sender)
      {
        NumberBound(published, j);
        if j < i {
          NumbersGrow(published, j, i);
        } else if i < j {
          NumbersGrow(published, i, j);
        }
      }
    }

    /** A message is refused as a duplicate exactly when it is in the log. */
    lemma DuplicateIffConsumed(vaa: bytes)
      requires Valid() && HasMessage(vaa) && vaa[0] == 1
      requires BitmapOf(c, app, MessageOf(vaa)) in storage.local
      ensures Fresh(c, app, storage.local, Consumed(log), vaa, BitmapOf(c, app, MessageOf(vaa))) <==>
              MessageOf(vaa) !in log
      ensures BitSet(c, app, storage.local, MessageOf(vaa)) <==> MessageOf(vaa) in log
    {
      assert BitSet(c, app, storage.local, MessageOf(vaa)) <==> MessageOf(vaa) in Consumed(log);
    }

    /** The client's check of a node's report tells exactly whether the message was consumed. */
    method ClientSees(round: real -> real, m: Message, state: Option<seq<(bytes, bytes)>>) returns (seen: bool)
      requires Valid() && Rounding(round) && Messages(m) && m.1 < EXACT
      requires state.Some? <==> BitmapOf(c, app, m) in storage.local
      requires state.Some? ==> Reports(state.value, storage.local[BitmapOf(c, app, m)])
      ensures seen <==> m in log
    {
      hide SigAddress, CollisionFree, Rotation, Rounding, Reports;
      assert BitSet(c, app, storage.local, m) <==> m in Consumed(log);
      ghost var l := if state.Some? then Some(storage.local[BitmapOf(c, app, m)]) else None;
      seen := CheckBitsSet(round, state, m.1, l);
    }
  }
}
