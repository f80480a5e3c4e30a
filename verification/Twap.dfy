/** The keeper's TWAP hedge machine: breach detection and the tranches of a stream, over runs of ticks. */
module Twap {
  import opened Bytes

  datatype Status = Healthy | TwapActive | FullyHedged

  datatype Stream = Stream(
    strikePrice: int,
    hedgeDirection: int,
    twapTranches: nat,
    twapIntervalMs: nat,
    status: Status,
    tranchesExecuted: nat,
    lastTrancheTimestamp: nat)

  datatype Action = Initiate | ExecuteTranche

  /** FLOOR breaches below the strike, CEILING above it. */
  predicate IsInBreach(s: Stream, price: int)
  {
    if s.hedgeDirection == 0 then price < s.strikePrice
    else if s.hedgeDirection == 1 then price > s.strikePrice
    else false
  }

  /** The hedge a stream needs now, if any. */
  function Detect(s: Stream, price: int, now: nat): Option<Action>
  {
    if s.hedgeDirection == 2 || s.strikePrice == 0 || !IsInBreach(s, price) then None
    else
      match s.status
      case Healthy => Some(Initiate)
      case TwapActive =>
        if now >= s.lastTrancheTimestamp + s.twapIntervalMs && s.tranchesExecuted < s.twapTranches
        then Some(ExecuteTranche) else None
      case FullyHedged => None
  }

  /** The stream after a recorded success. */
  function Recorded(s: Stream, a: Action, at: nat): Stream
  {
    match a
    case Initiate => s.(status := TwapActive, tranchesExecuted := 1, lastTrancheTimestamp := at)
    case ExecuteTranche =>
      var n := s.tranchesExecuted + 1;
      s.(tranchesExecuted := n, lastTrancheTimestamp := at,
        status := if n >= s.twapTranches then FullyHedged else TwapActive)
  }

  /** One recorded hedge: when it started, when its success was written down, and the price that called for it. */
  datatype Tranche = Tranche(started: nat, recorded: nat, price: int)

  /** Each tranche starts no sooner than the interval after the previous one was recorded. */
  ghost predicate SpacedOut(h: seq<Tranche>, interval: nat)
  {
    forall i :: 0 < i < |h| ==> h[i].started >= h[i - 1].recorded + interval
  }

  /** A FLOOR stream is hedged below its strike only, a CEILING stream above it, and no other stream at all. */
  ghost predicate Breached(direction: int, strike: int, h: seq<Tranche>)
  {
    forall i :: 0 <= i < |h| ==>
      && strike != 0
      && ((direction == 0 && h[i].price < strike) || (direction == 1 && h[i].price > strike))
  }

  /** What holds of a stream with history `h` in every reachable state. */
  ghost predicate StreamOk(s: Stream, h: seq<Tranche>)
  {
    && s.twapTranches >= 1
    && s.tranchesExecuted == |h| <= s.twapTranches
    && (s.status == Healthy <==> h == [])
    && (s.status == FullyHedged <==> s.tranchesExecuted == s.twapTranches >= 2)
    && (h != [] ==> s.lastTrancheTimestamp == h[|h| - 1].recorded)
    && SpacedOut(h, s.twapIntervalMs) && Breached(s.hedgeDirection, s.strikePrice, h)
  }

  lemma RecordKeeps(s: Stream, h: seq<Tranche>, price: int, now: nat, a: Action, started: nat, at: nat)
    requires StreamOk(s, h) && Detect(s, price, now) == Some(a) && now <= started <= at
    ensures StreamOk(Recorded(s, a, at), h + [Tranche(started, at, price)])
  {
    var t := h + [Tranche(started, at, price)];
    forall i | 0 < i < |t|
      ensures t[i].started >= t[i - 1].recorded + s.twapIntervalMs
    {
      assert i < |h| ==> t[i] == h[i] && t[i - 1] == h[i - 1];
    }
  }

  /** A stream of a single tranche is never marked fully hedged: its one tranche leaves it active for good. */
  lemma SingleTrancheStaysActive(s: Stream, h: seq<Tranche>, price: int, now: nat)
    requires StreamOk(s, h) && s.twapTranches == 1 && s.tranchesExecuted == 1
    ensures s.status == TwapActive && Detect(s, price, now) == None
  {
  }

  // ---- What a tick and a run of ticks do ----

  /** What one hedge transaction did: when it started, when it returned, and whether there was a digest. */
  datatype Outcome = Outcome(started: nat, finished: nat, success: bool)

  /** One tick: the price if there is one, the time of detection, and how the hedges went, as far as they got. */
  datatype TickInput = TickInput(price: Option<int>, now: nat, outcomes: seq<Outcome>)

  /** Hedges of a tick run one after the other, after the detection. */
  ghost predicate InOrder(tick: TickInput)
  {
    && (forall i :: 0 <= i < |tick.outcomes| ==> tick.now <= tick.outcomes[i].started <= tick.outcomes[i].finished)
    && (forall i :: 0 < i < |tick.outcomes| ==> tick.outcomes[i - 1].finished <= tick.outcomes[i].started)
  }

  /** How many streams before `i` need a hedge; this is the position of stream `i` among the breaches. */
  function Rank(streams: seq<Stream>, price: int, now: nat, i: nat): nat
    requires i <= |streams|
  {
    if i == 0 then 0 else Rank(streams, price, now, i - 1) + if Detect(streams[i - 1], price, now).Some? then 1 else 0
  }

  lemma {:induction false} RankGrows(streams: seq<Stream>, price: int, now: nat, i: nat, j: nat)
    requires i < j <= |streams| && Detect(streams[i], price, now).Some?
    ensures Rank(streams, price, now, i) < Rank(streams, price, now, j)
  {
    if i < j - 1 {
      RankGrows(streams, price, now, i, j - 1);
    }
  }

  /** The hedge of stream `i` that a tick records: there is a breach, its transaction was made, and it succeeded. */
  function Hedge(streams: seq<Stream>, tick: TickInput, i: nat): Option<(Action, Outcome)>
    requires i < |streams|
  {
    if tick.price == None || Detect(streams[i], tick.price.value, tick.now) == None then None
    else
      var k := Rank(streams, tick.price.value, tick.now, i);
      if k < |tick.outcomes| && tick.outcomes[k].success
      then Some((Detect(streams[i], tick.price.value, tick.now).value, tick.outcomes[k])) else None
  }

  function StreamAfter(streams: seq<Stream>, tick: TickInput, i: nat): Stream
    requires i < |streams|
  {
    match Hedge(streams, tick, i)
    case None => streams[i]
    case Some((action, o)) => Recorded(streams[i], action, o.finished)
  }

  function TrancheOf(streams: seq<Stream>, tick: TickInput, i: nat): seq<Tranche>
    requires i < |streams|
  {
    match Hedge(streams, tick, i)
    case None => []
    case Some((_, o)) => [Tranche(o.started, o.finished, tick.price.value)]
  }

  lemma {:induction false} RankBound(streams: seq<Stream>, price: int, now: nat, i: nat)
    requires i <= |streams|
    ensures Rank(streams, price, now, i) <= i
  {
    if i > 0 {
      RankBound(streams, price, now, i - 1);
    }
  }

  /**
   * What is recorded is a transaction of the tick that succeeded, at the tick's price. If every transaction succeeds,
   * then exactly the streams in breach get their tranche: the price is on the wrong side of the strike, and the stream
   * is healthy, or active with its interval over and tranches left.
   */
  lemma RecordedExactly(streams: seq<Stream>, tick: TickInput, i: nat)
    requires i < |streams|
    ensures TrancheOf(streams, tick, i) != [] ==>
      && tick.price.Some?
      && exists k :: 0 <= k < |tick.outcomes| && tick.outcomes[k].success
           && TrancheOf(streams, tick, i) ==
              [Tranche(tick.outcomes[k].started, tick.outcomes[k].finished, tick.price.value)]
    ensures tick.price.Some? && |tick.outcomes| >= |streams| && (forall o :: o in tick.outcomes ==> o.success) ==>
      var s, price := streams[i], tick.price.value;
      (TrancheOf(streams, tick, i) != [] <==>
       && s.strikePrice != 0
       && ((s.hedgeDirection == 0 && price < s.strikePrice) || (s.hedgeDirection == 1 && price > s.strikePrice))
       && (|| s.status == Healthy
           || (&& s.status == TwapActive && s.tranchesExecuted < s.twapTranches
               && tick.now >= s.lastTrancheTimestamp + s.twapIntervalMs)))
  {
    if tick.price.Some? {
      RankBound(streams, tick.price.value, tick.now, i);
    }
  }

  /** All streams after a tick. */
  function Ticked(streams: seq<Stream>, tick: TickInput): (r: seq<Stream>)
    ensures |r| == |streams|
  {
    seq(|streams|, i requires 0 <= i < |streams| => StreamAfter(streams, tick, i))
  }

  /** All streams after the first `n` ticks. */
  function AfterTicks(streams: seq<Stream>, ticks: seq<TickInput>, n: nat): (r: seq<Stream>)
    requires n <= |ticks|
    ensures |r| == |streams|
  {
    if n == 0 then streams else Ticked(AfterTicks(streams, ticks, n - 1), ticks[n - 1])
  }

  /** The recorded successes of stream `i` in the first `n` ticks, in order. */
  function Successes(streams: seq<Stream>, ticks: seq<TickInput>, n: nat, i: nat): seq<Tranche>
    requires n <= |ticks| && i < |streams|
  {
    if n == 0 then []
    else Successes(streams, ticks, n - 1, i) + TrancheOf(AfterTicks(streams, ticks, n - 1), ticks[n - 1], i)
  }

  /** A stream keeps its strike, direction, limit and interval, and once fully hedged stays as it is. */
  ghost predicate OwnTerms(s: Stream, t: Stream)
  {
    && t.strikePrice == s.strikePrice && t.hedgeDirection == s.hedgeDirection
    && t.twapTranches == s.twapTranches && t.twapIntervalMs == s.twapIntervalMs
    && (s.status == FullyHedged ==> t == s)
  }

  /** A tick keeps what holds of a stream, its limit and its interval, and leaves fully hedged streams alone. */
  lemma TickKeeps(streams: seq<Stream>, tick: TickInput, i: nat, h: seq<Tranche>)
    requires i < |streams| && InOrder(tick) && StreamOk(streams[i], h)
    ensures StreamOk(StreamAfter(streams, tick, i), h + TrancheOf(streams, tick, i))
    ensures OwnTerms(streams[i], StreamAfter(streams, tick, i))
  {
    match Hedge(streams, tick, i)
    case None => assert h + [] == h;
    case Some((action, o)) =>
      RecordKeeps(streams[i], h, tick.price.value, tick.now, action, o.started, o.finished);
  }

  /** A fresh stream: healthy, nothing executed. */
  predicate IsFresh(s: Stream)
  {
    s.status == Healthy && s.tranchesExecuted == 0
  }

  /**
   * The run bound. A fresh stream with at least one tranche, after any ticks: its tranches are exactly the recorded
   * successes, no more than its limit, each at least its interval after the one before, and each at a price below its
   * strike if it is a FLOOR stream, above it if a CEILING stream. It is fully hedged only at the limit.
   */
  lemma {:induction false} RunBound(streams: seq<Stream>, ticks: seq<TickInput>, n: nat, i: nat)
    requires n <= |ticks| && i < |streams| && IsFresh(streams[i]) && streams[i].twapTranches >= 1
    requires forall k :: 0 <= k < |ticks| ==> InOrder(ticks[k])
    ensures var s, h := AfterTicks(streams, ticks, n)[i], Successes(streams, ticks, n, i);
      && StreamOk(s, h) && s.tranchesExecuted == |h| <= streams[i].twapTranches
      && SpacedOut(h, streams[i].twapIntervalMs) && s.twapTranches == streams[i].twapTranches
      && s.twapIntervalMs == streams[i].twapIntervalMs
      && (s.status == FullyHedged ==> |h| == streams[i].twapTranches)
      && s.strikePrice == streams[i].strikePrice && s.hedgeDirection == streams[i].hedgeDirection
      && (streams[i].hedgeDirection == 0 ==> forall k :: 0 <= k < |h| ==> h[k].price < streams[i].strikePrice)
      && (streams[i].hedgeDirection == 1 ==> forall k :: 0 <= k < |h| ==> h[k].price > streams[i].strikePrice)
      && ((streams[i].hedgeDirection != 0 && streams[i].hedgeDirection != 1) || streams[i].strikePrice == 0 ==> h == [])
  {
    hide StreamAfter, TrancheOf;
    if n > 0 {
      RunBound(streams, ticks, n - 1, i);
      TickKeeps(AfterTicks(streams, ticks, n - 1), ticks[n - 1], i, Successes(streams, ticks, n - 1, i));
    }
  }

  /** The bound needs the tranche: without one, the first recorded hedge of a fresh stream exceeds it. */
  lemma NoTrancheExceeds(streams: seq<Stream>, tick: TickInput, i: nat)
    requires i < |streams| && IsFresh(streams[i]) && Hedge(streams, tick, i).Some?
    ensures Ticked(streams, tick)[i].tranchesExecuted <= streams[i].twapTranches <==> streams[i].twapTranches >= 1
  {
  }

  lemma {:induction false} RunKeeps(streams: seq<Stream>, ticks: seq<TickInput>, n: nat, i: nat, h: seq<Tranche>)
    requires n <= |ticks| && i < |streams| && StreamOk(streams[i], h)
    requires forall k :: 0 <= k < |ticks| ==> InOrder(ticks[k])
    ensures OwnTerms(streams[i], AfterTicks(streams, ticks, n)[i])
    ensures StreamOk(AfterTicks(streams, ticks, n)[i], h + Successes(streams, ticks, n, i))
  {
    hide StreamOk, StreamAfter, TrancheOf, InOrder;
    if n == 0 {
      assert h + [] == h;
    } else {
      RunKeeps(streams, ticks, n - 1, i, h);
      var before := AfterTicks(streams, ticks, n - 1);
      var more := h + Successes(streams, ticks, n - 1, i);
      TickKeeps(before, ticks[n - 1], i, more);
      assert more + TrancheOf(before, ticks[n - 1], i) == h + Successes(streams, ticks, n, i);
    }
  }

  // ---- Inside a tick ----

  /** The breaches among the first `n` streams, each at the position of its rank. */
  ghost predicate Ranked(streams: seq<Stream>, price: int, now: nat, breaches: seq<(nat, Action)>, n: nat)
    requires n <= |streams|
  {
    && |breaches| == Rank(streams, price, now, n)
    && (forall i :: 0 <= i < n && Detect(streams[i], price, now).Some? ==>
          && var k := Rank(streams, price, now, i);
          && k < |breaches| && breaches[k] == (i, Detect(streams[i], price, now).value))
    && (forall k :: 0 <= k < |breaches| ==>
          && var i := breaches[k].0;
          && i < n && Rank(streams, price, now, i) == k && Detect(streams[i], price, now) == Some(breaches[k].1))
  }

  /** Who is in such a list: by status, strike, direction, price, interval and limit. */
  lemma BreachesExactly(streams: seq<Stream>, price: int, now: nat, breaches: seq<(nat, Action)>)
    requires Ranked(streams, price, now, breaches, |streams|)
    ensures forall i :: 0 <= i < |streams| ==>
      var s := streams[i];
      ((i, Initiate) in breaches <==>
       && s.status == Healthy && s.strikePrice != 0
       && ((s.hedgeDirection == 0 && price < s.strikePrice) || (s.hedgeDirection == 1 && price > s.strikePrice)))
    ensures forall i :: 0 <= i < |streams| ==>
      var s := streams[i];
      ((i, ExecuteTranche) in breaches <==>
       && s.status == TwapActive && s.strikePrice != 0
       && ((s.hedgeDirection == 0 && price < s.strikePrice) || (s.hedgeDirection == 1 && price > s.strikePrice))
       && now - s.lastTrancheTimestamp >= s.twapIntervalMs && s.tranchesExecuted < s.twapTranches)
    ensures forall k, l :: 0 <= k < l < |breaches| ==> breaches[k].0 < breaches[l].0 < |streams|
  {
    forall k, l | 0 <= k < l < |breaches|
      ensures breaches[k].0 < breaches[l].0
    {
      if breaches[l].0 < breaches[k].0 {
        RankGrows(streams, price, now, breaches[l].0, breaches[k].0);
      }
    }
  }

  /** The hedge of stream `i` is among the first `k` transactions of the tick. */
  ghost predicate Reached(streams: seq<Stream>, tick: TickInput, i: nat, k: nat)
    requires i < |streams|
  {
    && tick.price.Some? && Detect(streams[i], tick.price.value, tick.now).Some?
    && Rank(streams, tick.price.value, tick.now, i) < k
  }

  /** After `k` transactions, exactly the streams reached so far are as the tick leaves them. */
  ghost predicate HalfTick(before: seq<Stream>, past: seq<seq<Tranche>>, streams: seq<Stream>,
                           history: seq<seq<Tranche>>,
                           tick: TickInput, k: nat)
  {
    && |past| == |before| == |streams| == |history|
    && (forall i :: 0 <= i < |before| ==>
          streams[i] == if Reached(before, tick, i, k) then StreamAfter(before, tick, i) else before[i])
    && (forall i :: 0 <= i < |before| ==>
          history[i] == if Reached(before, tick, i, k) then past[i] + TrancheOf(before, tick, i) else past[i])
  }

  lemma HalfTickStarts(before: seq<Stream>, past: seq<seq<Tranche>>, tick: TickInput)
    requires |past| == |before|
    ensures HalfTick(before, past, before, past, tick, 0)
  {
  }

  lemma HalfTickSizes(before: seq<Stream>, past: seq<seq<Tranche>>, streams: seq<Stream>, history: seq<seq<Tranche>>,
                      tick: TickInput, k: nat)
    requires HalfTick(before, past, streams, history, tick, k)
    ensures |streams| == |history| == |before|
  {
  }

  /** Transaction `k` belongs to stream `i`: no other stream is reached by it. */
  lemma HalfTickNext(before: seq<Stream>, past: seq<seq<Tranche>>, streams: seq<Stream>, history: seq<seq<Tranche>>,
                     tick: TickInput, k: nat, i: nat, action: Action)
    requires HalfTick(before, past, streams, history, tick, k) && k < |tick.outcomes| && tick.price.Some?
    requires i < |before|
    requires Rank(before, tick.price.value, tick.now, i) == k
    requires Detect(before[i], tick.price.value, tick.now) == Some(action)
    ensures var o := tick.outcomes[k];
      if o.success then
        HalfTick(before, past, streams[i := Recorded(streams[i], action, o.finished)],
                 history[i := history[i] + [Tranche(o.started, o.finished, tick.price.value)]], tick, k + 1)
      else HalfTick(before, past, streams, history, tick, k + 1)
  {
    hide Detect, Recorded;
    var next := k + 1;
    forall j | 0 <= j < |before|
      ensures Reached(before, tick, j, next) <==> Reached(before, tick, j, k) || j == i
    {
      if Detect(before[j], tick.price.value, tick.now).Some? {
        SameRank(before, tick.price.value, tick.now, i, j);
      }
    }
    assert !Reached(before, tick, i, k);
    assert past[i] + [] == past[i];
  }

  lemma SameRank(streams: seq<Stream>, price: int, now: nat, i: nat, j: nat)
    requires i < |streams| && j < |streams| && Detect(streams[i], price, now).Some?
    requires Detect(streams[j], price, now).Some?
    ensures Rank(streams, price, now, i) == Rank(streams, price, now, j) <==> i == j
  {
    if i < j {
      RankGrows(streams, price, now, i, j);
    } else if j < i {
      RankGrows(streams, price, now, j, i);
    }
  }

  /** All breaches, or all transactions, are through. */
  lemma HalfTickEnds(before: seq<Stream>, past: seq<seq<Tranche>>, streams: seq<Stream>, history: seq<seq<Tranche>>,
                     tick: TickInput, k: nat, breaches: nat)
    requires HalfTick(before, past, streams, history, tick, k) && InOrder(tick)
    requires k == if breaches < |tick.outcomes| then breaches else |tick.outcomes|
    requires breaches == if tick.price == None then 0 else Rank(before, tick.price.value, tick.now, |before|)
    requires forall i :: 0 <= i < |before| ==> StreamOk(before[i], past[i])
    ensures streams == Ticked(before, tick)
    ensures forall i :: 0 <= i < |before| ==>
              history[i] == past[i] + TrancheOf(before, tick, i) && StreamOk(streams[i], history[i])
  {
    hide StreamOk, Detect, Recorded, InOrder;
    forall i | 0 <= i < |before|
      ensures streams[i] == StreamAfter(before, tick, i)
      ensures history[i] == past[i] + TrancheOf(before, tick, i) && StreamOk(streams[i], history[i])
    {
      TickKeeps(before, tick, i, past[i]);
      if tick.price.Some? && Detect(before[i], tick.price.value, tick.now).Some? {
        RankGrows(before, tick.price.value, tick.now, i, |before|);
      }
      if !Reached(before, tick, i, k) {
        assert Hedge(before, tick, i) == None;
        assert past[i] + [] == past[i];
      }
    }
  }

  class Hedger {
    var streams: seq<Stream>
    /** Recorded successes of each stream. */
    ghost var history: seq<seq<Tranche>>

    ghost predicate Valid()
      reads this
    {
      && |streams| == |history|
      && forall i :: 0 <= i < |streams| ==> StreamOk(streams[i], history[i])
    }

    /** Streams start healthy, with at least one tranche. */
    constructor (initial: seq<Stream>)
      requires forall i :: 0 <= i < |initial| ==> IsFresh(initial[i]) && initial[i].twapTranches >= 1
      ensures Valid() && streams == initial && forall i :: 0 <= i < |history| ==> history[i] == []
    {
      streams := initial;
      history := seq(|initial|, _ => []);
    }

    /** detectBreaches: exactly the streams that need a hedge, in order. Any other direction or a zero strike: never. */
    method DetectBreaches(price: int, now: nat) returns (breaches: seq<(nat, Action)>)
      ensures Ranked(streams, price, now, breaches, |streams|)
      // A healthy stream: its strike is set, and the price is below a FLOOR or above a CEILING
      ensures forall i :: 0 <= i < |streams| ==>
        var s := streams[i];
        ((i, Initiate) in breaches <==>
         && s.status == Healthy && s.strikePrice != 0
         && ((s.hedgeDirection == 0 && price < s.strikePrice) || (s.hedgeDirection == 1 && price > s.strikePrice)))
      // An active stream: the interval has passed too, and tranches are left
      ensures forall i :: 0 <= i < |streams| ==>
        var s := streams[i];
        ((i, ExecuteTranche) in breaches <==>
         && s.status == TwapActive && s.strikePrice != 0
         && ((s.hedgeDirection == 0 && price < s.strikePrice) || (s.hedgeDirection == 1 && price > s.strikePrice))
         && now - s.lastTrancheTimestamp >= s.twapIntervalMs && s.tranchesExecuted < s.twapTranches)
      // In the order of the streams, each at most once
      ensures forall k, l :: 0 <= k < l < |breaches| ==> breaches[k].0 < breaches[l].0 < |streams|
    {
      breaches := [];
      for n := 0 to |streams|
        invariant Ranked(streams, price, now, breaches, n)
      {
        var s := streams[n];
        if s.hedgeDirection == 2 || s.strikePrice == 0 { continue; }
        var inBreach := IsInBreach(s, price);
        if s.status == Healthy && inBreach {
          breaches := breaches + [(n, Initiate)];
        } else if s.status == TwapActive && inBreach {
          var nextTrancheAt := s.lastTrancheTimestamp + s.twapIntervalMs;
          if now >= nextTrancheAt && s.tranchesExecuted < s.twapTranches {
            breaches := breaches + [(n, ExecuteTranche)];
          }
        }
      }
      BreachesExactly(streams, price, now, breaches);
    }

    /** One tick: detect at `now`, then hedge one breach after the other and record the successes. */
    method Tick(tick: TickInput)
      requires Valid() && InOrder(tick)
      modifies this
      ensures Valid() && streams == Ticked(old(streams), tick)
      ensures forall i :: 0 <= i < |streams| ==> history[i] == old(history)[i] + TrancheOf(old(streams), tick, i)
    {
      hide StreamOk, StreamAfter, TrancheOf, Reached, InOrder, Recorded, Detect, Rank, Ticked, Hedge, HalfTick;
      ghost var before, past := streams, history;
      var breaches: seq<(nat, Action)> := [];
      if tick.price.Some? {
        breaches := DetectBreaches(tick.price.value, tick.now);
      }
      HalfTickStarts(before, past, tick);
      var made := if |breaches| < |tick.outcomes| then |breaches| else |tick.outcomes|;
      for k := 0 to made
        invariant HalfTick(before, past, streams, history, tick, k)
      {
        var (i, action) := breaches[k];
        var o := tick.outcomes[k];
        HalfTickSizes(before, past, streams, history, tick, k);
        HalfTickNext(before, past, streams, history, tick, k, i, action);
        if o.success {
          streams := streams[i := Recorded(streams[i], action, o.finished)];
          history := history[i := history[i] + [Tranche(o.started, o.finished, tick.price.value)]];
        }
      }
      HalfTickSizes(before, past, streams, history, tick, made);
      HalfTickEnds(before, past, streams, history, tick, made, |breaches|);
    }

    /** Any run of ticks that do not overlap: what is recorded are exactly the successes. */
    method Run(ticks: seq<TickInput>)
      requires Valid() && forall k :: 0 <= k < |ticks| ==> InOrder(ticks[k])
      modifies this
      ensures Valid() && streams == AfterTicks(old(streams), ticks, |ticks|)
      ensures forall i :: 0 <= i < |streams| ==>
                && history[i] == old(history)[i] + Successes(old(streams), ticks, |ticks|, i)
                && OwnTerms(old(streams)[i], streams[i])
    {
      hide StreamOk, TrancheOf, InOrder, Ticked;
      for n := 0 to |ticks|
        invariant Valid() && streams == AfterTicks(old(streams), ticks, n)
        invariant forall i :: 0 <= i < |streams| ==>
                  history[i] == old(history)[i] + Successes(old(streams), ticks, n, i)
      {
        Tick(ticks[n]);
      }
      forall i | 0 <= i < |streams|
        ensures OwnTerms(old(streams)[i], streams[i])
      {
        RunKeeps(old(streams), ticks, |ticks|, i, old(history)[i]);
      }
    }
  }
}
