/** Fortuna's keeper: the block watcher, the batches, and the cache of handled requests. */
module BlockWatcher {
  import opened Bytes

  const BACKLOG_RANGE: nat := 1000
  const BLOCK_BATCH_SIZE: nat := 100
  const RETRY_PREVIOUS_BLOCKS: nat := 100

  /** Blocks `from` to `to`, both included. */
  datatype Range = Range(from: nat, to: nat)

  predicate In(b: nat, r: Range)
  {
    r.from <= b <= r.to
  }

  function SaturatingSub(a: nat, b: nat): nat
  {
    if a < b then 0 else a - b
  }

  // ---- The watcher ----

  /** One turn of the watch loop: the stream ends, or a safe head is read and the send succeeds or fails. */
  datatype Turn = StreamEnded | Head(latest: nat, sent: bool)

  /** Every block from the start of the backlog to `last` is in the backlog or in a sent range. */
  ghost predicate Covers(backlog: Range, sent: seq<Range>, last: nat)
  {
    forall b :: backlog.from <= b <= last ==> In(b, backlog) || exists i :: 0 <= i < |sent| && In(b, sent[i])
  }

  lemma CoversMore(backlog: Range, sent: seq<Range>, last: nat, r: Range)
    requires Covers(backlog, sent, last) && r.from <= last
    ensures Covers(backlog, sent + [r], r.to)
  {
    var more := sent + [r];
    forall b | backlog.from <= b <= r.to
      ensures In(b, backlog) || exists i :: 0 <= i < |more| && In(b, more[i])
    {
      if b <= last {
        if !In(b, backlog) {
          var i :| 0 <= i < |sent| && In(b, sent[i]);
          assert In(b, more[i]);
        }
      } else {
        assert In(b, more[|sent|]);
      }
    }
  }

  class Watcher {
    const backlog: Range
    /** last_safe_block_processed, kept across restarts of the watcher. */
    var lastSafe: nat
    /** Ranges handed to the processing task. */
    var sent: seq<Range>

    ghost predicate Valid()
      reads this
    {
      && backlog.from <= backlog.to <= lastSafe
      && Covers(backlog, sent, lastSafe)
      && forall i :: 0 <= i < |sent| ==>
           (sent[i].from == 0 || sent[i].from + 100 <= sent[i].to) && sent[i].to <= lastSafe
    }

    /** The backlog ends at the first safe block, where watching starts. */
    constructor (latestSafe: nat)
      ensures Valid() && lastSafe == latestSafe && sent == []
      ensures backlog == Range(if latestSafe < 1000 then 0 else latestSafe - 1000, latestSafe)
    {
      backlog := Range(SaturatingSub(latestSafe, BACKLOG_RANGE), latestSafe);
      lastSafe := latestSafe;
      sent := [];
    }

    /** One watch session: an error ends it, a failed send only postpones the range. */
    method WatchBlocks(turns: seq<Turn>)
      requires Valid()
      modifies this
      ensures Valid() && old(lastSafe) <= lastSafe && old(sent) <= sent
      ensures forall t :: t in turns && t.Head? && t.sent && StreamEnded !in turns ==> t.latest <= lastSafe
    {
      for n := 0 to |turns|
        invariant Valid() && old(lastSafe) <= lastSafe && old(sent) <= sent
        invariant forall i :: 0 <= i < n ==> turns[i].Head? && (turns[i].sent ==> turns[i].latest <= lastSafe)
      {
        if turns[n].StreamEnded? { return; }
        var latest := turns[n].latest;
        if latest > lastSafe {
          var from := SaturatingSub(latest, RETRY_PREVIOUS_BLOCKS);
          if from > lastSafe {
            from := lastSafe;
          }
          if turns[n].sent {
            CoversMore(backlog, sent, lastSafe, Range(from, latest));
            sent := sent + [Range(from, latest)];
            lastSafe := latest;
          }
        }
      }
    }

    /** Restarted after every error, any number of times, from where it stopped. */
    method WatchBlocksWrapper(sessions: seq<seq<Turn>>)
      requires Valid()
      modifies this
      ensures Valid() && old(lastSafe) <= lastSafe && old(sent) <= sent
    {
      for n := 0 to |sessions|
        invariant Valid() && old(lastSafe) <= lastSafe && old(sent) <= sent
      {
        WatchBlocks(sessions[n]);
      }
    }
  }

  // ---- Batches ----

  /** Consecutive ranges from `from` up to but not including `end`. */
  ghost predicate TilesTo(batches: seq<Range>, from: nat, end: nat)
  {
    if batches == [] then from == end
    else
      && batches[0].from == from <= batches[0].to < end
      && TilesTo(batches[1..], batches[0].to + 1, end)
  }

  lemma {:induction false} TilesAppend(batches: seq<Range>, from: nat, mid: nat, to: nat)
    requires from <= mid <= to && TilesTo(batches, from, mid)
    ensures TilesTo(batches + [Range(mid, to)], from, to + 1)
    decreases |batches|
  {
    if batches != [] {
      TilesAppend(batches[1..], batches[0].to + 1, mid, to);
      assert (batches + [Range(mid, to)])[1..] == batches[1..] + [Range(mid, to)];
    } else {
      assert ([] + [Range(mid, to)])[1..] == [];
    }
  }

  /** Each block of the range is in exactly one batch. */
  lemma {:induction false} InOneBatch(batches: seq<Range>, from: nat, end: nat, b: nat)
    requires TilesTo(batches, from, end) && from <= b < end
    ensures exists i :: 0 <= i < |batches| && In(b, batches[i])
                        && forall j :: 0 <= j < |batches| && In(b, batches[j]) ==> j == i
    decreases |batches|
  {
    var rest := batches[1..];
    if b <= batches[0].to {
      forall j | 0 <= j < |batches| && In(b, batches[j])
        ensures j == 0
      {
        if j > 0 {
          BatchBounds(rest, batches[0].to + 1, end, j - 1);
        }
      }
    } else {
      InOneBatch(rest, batches[0].to + 1, end, b);
      var i :| 0 <= i < |rest| && In(b, rest[i]) && forall j :: 0 <= j < |rest| && In(b, rest[j]) ==> j == i;
      assert batches[i + 1] == rest[i];
      forall j | 0 <= j < |batches| && In(b, batches[j])
        ensures j == i + 1
      {
        assert j > 0 ==> batches[j] == rest[j - 1];
      }
    }
  }

  lemma {:induction false} BatchBounds(batches: seq<Range>, from: nat, end: nat, i: nat)
    requires TilesTo(batches, from, end) && i < |batches|
    ensures from <= batches[i].from <= batches[i].to < end
    decreases |batches|
  {
    if i > 0 {
      BatchBounds(batches[1..], batches[0].to + 1, end, i - 1);
    }
  }

  /** The batches of a range: they tile it, each but the last has exactly 101 blocks, and the last at most that. */
  ghost predicate BatchesOf(batches: seq<Range>, r: Range)
  {
    && TilesTo(batches, r.from, if r.from <= r.to then r.to + 1 else r.from)
    && (forall i :: 0 <= i < |batches| ==> batches[i].to <= batches[i].from + 100)
    && (forall i :: 0 <= i < |batches| - 1 ==> batches[i].to == batches[i].from + 100)
  }

  /** The second batch starts after the first; a single batch is the whole range. */
  lemma FirstBatch(batches: seq<Range>, from: nat, end: nat)
    requires TilesTo(batches, from, end) && batches != []
    ensures batches[0].from == from
    ensures if |batches| == 1 then batches[0].to + 1 == end else batches[0].to + 1 == batches[1].from < end
  {
    var rest := batches[1..];
    assert TilesTo(rest, batches[0].to + 1, end);
    assert |batches| > 1 ==> rest[0] == batches[1];
  }

  /** How many blocks a range has. */
  function Blocks(r: Range): nat
  {
    if r.from <= r.to then r.to - r.from + 1 else 0
  }

  /** The documented bound of 100 blocks per batch holds exactly for ranges of at most 100 blocks. */
  lemma HundredBlocks(batches: seq<Range>, r: Range)
    requires BatchesOf(batches, r)
    ensures (forall i :: 0 <= i < |batches| ==> Blocks(batches[i]) <= BLOCK_BATCH_SIZE) <==>
            Blocks(r) <= BLOCK_BATCH_SIZE
  {
    if Blocks(r) <= BLOCK_BATCH_SIZE {
      forall i | 0 <= i < |batches|
        ensures Blocks(batches[i]) <= BLOCK_BATCH_SIZE
      {
        BatchBounds(batches, r.from, if r.from <= r.to then r.to + 1 else r.from, i);
      }
    } else {
      FirstBatch(batches, r.from, r.to + 1);
      assert Blocks(batches[0]) > BLOCK_BATCH_SIZE;
    }
  }

  /** The smallest range that breaks it: 101 blocks make one batch. */
  lemma OneBatchOf101(batches: seq<Range>)
    requires BatchesOf(batches, Range(0, 100))
    ensures batches == [Range(0, 100)] && Blocks(batches[0]) == 101
  {
    FirstBatch(batches, 0, 101);
  }

  // ---- Processing ----

  datatype RequestState = Fulfilled | Processed

  /** What the chain and the node answer while one event is processed. */
  datatype Answer =
    | OtherProvider
    | NotRevealable
    | EstimateError
    | EstimateNone
    | Estimated(gas: nat, outcome: SendOutcome)

  datatype SendOutcome = ProviderError | OtherError | Confirmed | NotFound | ReceiptError

  /** process_event's effect on the cache; no state is an error that is retried. */
  function ProcessEvent(a: Answer, gasLimit: nat): Option<RequestState>
  {
    match a
    case OtherProvider => Some(Fulfilled)
    case NotRevealable => Some(Fulfilled)
    case EstimateError => None
    case EstimateNone => Some(Processed)
    case Estimated(gas, outcome) =>
      if gas * 4 / 3 > gasLimit then Some(Fulfilled)
      else
        match outcome
        case ProviderError => None
        case OtherError => Some(Processed)
        case Confirmed => Some(Fulfilled)
        case NotFound => None
        case ReceiptError => None
  }

  /** The gas estimate, with a third on top, is within the limit. */
  ghost predicate Affordable(gas: nat, gasLimit: nat)
  {
    4 * gas < 3 * (gasLimit + 1)
  }

  /** The answers after which the event is tried again: errors of the node, and no receipt for what was sent. */
  ghost predicate Retried(a: Answer, gasLimit: nat)
  {
    || a == EstimateError
    || (&& a.Estimated? && Affordable(a.gas, gasLimit)
        && (a.outcome == ProviderError || a.outcome == NotFound || a.outcome == ReceiptError))
  }

  /** The answers that leave the event processed but not fulfilled: the contract refuses the reveal. */
  ghost predicate Refused(a: Answer, gasLimit: nat)
  {
    a == EstimateNone || (a.Estimated? && Affordable(a.gas, gasLimit) && a.outcome == OtherError)
  }

  lemma ProcessEventMeans(a: Answer, gasLimit: nat)
    ensures ProcessEvent(a, gasLimit) ==
            if Retried(a, gasLimit) then None else if Refused(a, gasLimit) then Some(Processed) else Some(Fulfilled)
  {
  }

  /** One step of the environment: a fetch answers or fails, an event is answered, and the other task may insert. */
  datatype Step = Step(fetched: bool, answer: Answer, others: map<nat, RequestState>)

  /** The request events of the blocks of a range, in order. */
  ghost function EventsIn(logs: nat -> seq<nat>, r: Range): seq<nat>
    decreases r.to + 1 - r.from
  {
    if r.from > r.to then [] else logs(r.from) + EventsIn(logs, Range(r.from + 1, r.to))
  }

  lemma {:induction false} EventFound(logs: nat -> seq<nat>, r: Range, b: nat, e: nat)
    requires In(b, r) && e in logs(b)
    ensures e in EventsIn(logs, r)
    decreases r.to + 1 - r.from
  {
    if r.from < b {
      EventFound(logs, Range(r.from + 1, r.to), b, e);
    }
  }

  /** Every event of every block in the range is in the cache. */
  ghost predicate Handled(logs: nat -> seq<nat>, r: Range, keys: set<nat>)
  {
    forall b, e :: In(b, r) && e in logs(b) ==> e in keys
  }

  class Processor {
    const gasLimit: nat
    var cache: map<nat, RequestState>

    constructor (gasLimit: nat)
      ensures cache == map[] && this.gasLimit == gasLimit
    {
      this.gasLimit := gasLimit;
      cache := map[];
    }

    /**
     * One event: skipped if fulfilled, otherwise retried until it is processed. `done` is false if the run ends
     * first.
     */
    method HandleEvent(e: nat, env: seq<Step>) returns (rest: seq<Step>, done: bool)
      modifies this
      ensures old(cache).Keys <= cache.Keys && |rest| <= |env|
      ensures done ==> e in cache
      ensures e in old(cache) && old(cache)[e] == Fulfilled ==> done && rest == env && cache == old(cache)
      ensures !done ==> forall i :: 0 <= i < |env| ==> Retried(env[i].answer, gasLimit)
      ensures done && !(e in old(cache) && old(cache)[e] == Fulfilled) ==>
        && |rest| < |env|
        && var k := |env| - |rest| - 1;
        && (forall i :: 0 <= i < k ==> Retried(env[i].answer, gasLimit)) && !Retried(env[k].answer, gasLimit)
        && cache[e] == if Refused(env[k].answer, gasLimit) then Processed else Fulfilled
    {
      rest, done := env, false;
      if e in cache && cache[e] == Fulfilled { return rest, true; }
      while rest != [] && !done
        invariant old(cache).Keys <= cache.Keys && |rest| <= |env| && rest == env[|env| - |rest|..]
        invariant !done ==> forall i :: 0 <= i < |env| - |rest| ==> Retried(env[i].answer, gasLimit)
        invariant done ==>
                  && e in cache && |rest| < |env|
                  && var k := |env| - |rest| - 1;
                  && (forall i :: 0 <= i < k ==> Retried(env[i].answer, gasLimit))
                  && !Retried(env[k].answer, gasLimit)
                  && cache[e] == if Refused(env[k].answer, gasLimit) then Processed else Fulfilled
        decreases |rest|
      {
        var step := rest[0];
        assert step == env[|env| - |rest|];
        ProcessEventMeans(step.answer, gasLimit);
        rest := rest[1..];
        cache := cache + step.others;
        var state := ProcessEvent(step.answer, gasLimit);
        if state.Some? {
          cache := cache[e := state.value];
          done := true;
        }
      }
    }

    /** process_single_block_batch: fetch until it works, then handle each event. */
    method ProcessBatch(events: seq<nat>, env: seq<Step>) returns (rest: seq<Step>, done: bool)
      modifies this
      ensures old(cache).Keys <= cache.Keys && |rest| <= |env|
      ensures done ==> forall e :: e in events ==> e in cache
    {
      rest, done := env, false;
      var fetched := false;
      while rest != [] && !fetched
        invariant old(cache).Keys <= cache.Keys && |rest| <= |env|
        decreases |rest|
      {
        fetched := rest[0].fetched;
        cache := cache + rest[0].others;
        rest := rest[1..];
      }
      if !fetched { return; }
      for i := 0 to |events|
        invariant old(cache).Keys <= cache.Keys && |rest| <= |env|
        invariant forall j :: 0 <= j < i ==> events[j] in cache
      {
        var ok;
        rest, ok := HandleEvent(events[i], rest);
        if !ok { return; }
      }
      done := true;
    }

    /** process_block_range: consecutive batches of at most 101 blocks that cover the range exactly. */
    method ProcessBlockRange(r: Range, logs: nat -> seq<nat>, fetch: Range -> seq<nat>, env: seq<Step>)
      returns (rest: seq<Step>, done: bool, batches: seq<Range>)
      requires forall x :: fetch(x) == EventsIn(logs, x)
      modifies this
      ensures old(cache).Keys <= cache.Keys && |rest| <= |env|
      ensures forall i :: 0 <= i < |batches| ==> batches[i].to - batches[i].from <= BLOCK_BATCH_SIZE
      ensures done ==> Handled(logs, r, cache.Keys) && BatchesOf(batches, r)
    {
      rest, done, batches := env, false, [];
      var current := r.from;
      while current <= r.to
        invariant r.from <= current && (r.from <= r.to ==> current <= r.to + 1) && (r.from > r.to ==> current == r.from)
        invariant TilesTo(batches, r.from, current)
        invariant forall i :: 0 <= i < |batches| ==> batches[i].to - batches[i].from <= BLOCK_BATCH_SIZE
        invariant forall i :: 0 <= i < |batches| ==>
                  batches[i].to == batches[i].from + BLOCK_BATCH_SIZE || (current == r.to + 1 && i == |batches| - 1)
        invariant old(cache).Keys <= cache.Keys && |rest| <= |env|
        invariant forall b, e :: r.from <= b < current && e in logs(b) ==> e in cache
        decreases r.to + 1 - current
      {
        var to := current + BLOCK_BATCH_SIZE;
        if to > r.to {
          to := r.to;
        }
        var ok;
        rest, ok := ProcessBatch(fetch(Range(current, to)), rest);
        if !ok { return; }
        BatchHandled(logs, Range(current, to), cache.Keys);
        TilesAppend(batches, r.from, current, to);
        batches := batches + [Range(current, to)];
        current := to + 1;
      }
      done := true;
    }
  }

  lemma BatchHandled(logs: nat -> seq<nat>, r: Range, keys: set<nat>)
    requires forall e :: e in EventsIn(logs, r) ==> e in keys
    ensures Handled(logs, r, keys)
  {
    forall b, e | In(b, r) && e in logs(b)
      ensures e in keys
    {
      EventFound(logs, r, b, e);
    }
  }

  /** The service as a whole: once the backlog and every sent range are processed, no event was missed. */
  lemma NothingMissed(w: Watcher, logs: nat -> seq<nat>, keys: set<nat>, b: nat, e: nat)
    requires w.Valid() && Handled(logs, w.backlog, keys)
    requires forall i :: 0 <= i < |w.sent| ==> Handled(logs, w.sent[i], keys)
    requires w.backlog.from <= b <= w.lastSafe && e in logs(b)
    ensures e in keys
  {
    if !In(b, w.backlog) {
      var i :| 0 <= i < |w.sent| && In(b, w.sent[i]);
      assert Handled(logs, w.sent[i], keys);
    }
  }
}
