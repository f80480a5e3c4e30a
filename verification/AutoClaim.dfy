/** The keeper's auto-claim lock, under ticks that overlap in any way. */
module AutoClaim {

  const RETRY_DELAY_MS: nat := 30000

  datatype StreamId = StreamId(name: string)

  /** The atomic pieces of a tick's claim loop between two awaits, and the timer callback. */
  datatype Event =
    | Begin(id: StreamId, at: nat)
    | Finish(id: StreamId, success: bool, at: nat)
    | Fire(id: StreamId, at: nat)

  /** What a run did: claims that started, and how they ended. */
  datatype Entry = Started(id: StreamId, at: nat) | Ended(id: StreamId, success: bool, at: nat)

  predicate Failed(e: Entry)
  {
    e.Ended? && !e.success
  }

  ghost function Starts(log: seq<Entry>, id: StreamId): nat
  {
    if log == [] then 0
    else Starts(log[..|log| - 1], id) + if log[|log| - 1].Started? && log[|log| - 1].id == id then 1 else 0
  }

  ghost function Ends(log: seq<Entry>, id: StreamId): nat
  {
    if log == [] then 0
    else Ends(log[..|log| - 1], id) + if log[|log| - 1].Ended? && log[|log| - 1].id == id then 1 else 0
  }

  lemma CountLast(log: seq<Entry>, e: Entry, id: StreamId)
    ensures Starts(log + [e], id) == Starts(log, id) + if e.Started? && e.id == id then 1 else 0
    ensures Ends(log + [e], id) == Ends(log, id) + if e.Ended? && e.id == id then 1 else 0
  {
    assert (log + [e])[..|log|] == log;
  }

  /** A start that comes after a failed end of the same stream comes at least thirty seconds after it. */
  ghost predicate Spaced(log: seq<Entry>)
  {
    forall i, j :: 0 <= i < j < |log| && Failed(log[i]) && log[j].Started? && log[i].id == log[j].id ==>
      log[j].at >= log[i].at + 30000
  }

  /** Starts and ends in the log account for the running claims; failures are dated no later than the last one. */
  ghost predicate LogOk(log: seq<Entry>, claims: multiset<StreamId>, failedAt: map<StreamId, nat>)
  {
    && Spaced(log)
    && (forall id :: Starts(log, id) == Ends(log, id) + claims[id])
    && (forall i :: 0 <= i < |log| && Failed(log[i]) ==>
          log[i].id in failedAt && log[i].at <= failedAt[log[i].id])
  }

  lemma LogStarted(log: seq<Entry>, claims: multiset<StreamId>, failedAt: map<StreamId, nat>, id: StreamId, at: nat)
    requires LogOk(log, claims, failedAt) && (id in failedAt ==> at >= failedAt[id] + RETRY_DELAY_MS)
    ensures LogOk(log + [Started(id, at)], claims + multiset{id}, failedAt)
  {
    var more := log + [Started(id, at)];
    forall x
      ensures Starts(more, x) == Ends(more, x) + (claims + multiset{id})[x]
    {
      CountLast(log, Started(id, at), x);
    }
  }

  lemma LogEnded(log: seq<Entry>, claims: multiset<StreamId>, failedAt: map<StreamId, nat>, id: StreamId,
                 success: bool, at: nat)
    requires LogOk(log, claims, failedAt) && claims[id] > 0 && (id in failedAt ==> failedAt[id] <= at)
    ensures var failures := if success then failedAt else failedAt[id := at];
      LogOk(log + [Ended(id, success, at)], claims - multiset{id}, failures)
  {
    var more := log + [Ended(id, success, at)];
    forall x
      ensures Starts(more, x) == Ends(more, x) + (claims - multiset{id})[x]
    {
      CountLast(log, Ended(id, success, at), x);
    }
  }

  /** The lock as the event loop sees it. */
  datatype Lock = Lock(inFlight: set<StreamId>, claims: multiset<StreamId>, timers: multiset<StreamId>,
                       due: map<StreamId, nat>, now: nat)

  /**
   * A stream is locked exactly while one claim runs or one release timer is pending, never both; a pending timer
   * is due thirty seconds after the failure, and without one the thirty seconds have passed.
   */
  ghost predicate StreamOk(l: Lock, failedAt: map<StreamId, nat>, id: StreamId)
  {
    && l.claims[id] + l.timers[id] == (if id in l.inFlight then 1 else 0)
    && (id in failedAt ==> failedAt[id] <= l.now)
    && (l.timers[id] > 0 ==> id in failedAt && id in l.due && l.due[id] == failedAt[id] + RETRY_DELAY_MS)
    && (id in failedAt && l.timers[id] == 0 ==> l.now >= failedAt[id] + RETRY_DELAY_MS)
  }

  ghost predicate LockOk(l: Lock, failedAt: map<StreamId, nat>)
  {
    forall id :: StreamOk(l, failedAt, id)
  }

  lemma LockBegins(l: Lock, failedAt: map<StreamId, nat>, id: StreamId, at: nat)
    requires LockOk(l, failedAt) && at >= l.now
    ensures LockOk(l.(now := at), failedAt)
    ensures id in l.inFlight <==> l.claims[id] + l.timers[id] == 1
    ensures id !in l.inFlight ==>
      l.claims[id] == l.timers[id] == 0 && (id in failedAt ==> at >= failedAt[id] + RETRY_DELAY_MS)
    ensures id !in l.inFlight ==>
      LockOk(l.(now := at, inFlight := l.inFlight + {id}, claims := l.claims + multiset{id}), failedAt)
  {
    assert StreamOk(l, failedAt, id);
    forall x
      ensures StreamOk(l.(now := at), failedAt, x)
    {
      assert StreamOk(l, failedAt, x);
    }
    if id !in l.inFlight {
      var m := l.(now := at, inFlight := l.inFlight + {id}, claims := l.claims + multiset{id});
      forall x
        ensures StreamOk(m, failedAt, x)
      {
        assert StreamOk(l, failedAt, x);
      }
    }
  }

  lemma LockSucceeds(l: Lock, failedAt: map<StreamId, nat>, id: StreamId, at: nat)
    requires LockOk(l, failedAt) && at >= l.now && l.claims[id] > 0
    ensures id in failedAt ==> failedAt[id] <= at
    ensures LockOk(l.(now := at, inFlight := l.inFlight - {id}, claims := l.claims - multiset{id}), failedAt)
  {
    assert StreamOk(l, failedAt, id);
    forall x
      ensures StreamOk(l.(now := at, inFlight := l.inFlight - {id}, claims := l.claims - multiset{id}), failedAt, x)
    {
      assert StreamOk(l, failedAt, x);
    }
  }

  lemma LockFails(l: Lock, failedAt: map<StreamId, nat>, id: StreamId, at: nat)
    requires LockOk(l, failedAt) && at >= l.now && l.claims[id] > 0
    ensures id in failedAt ==> failedAt[id] <= at
    ensures LockOk(l.(now := at, claims := l.claims - multiset{id}, timers := l.timers + multiset{id},
                      due := l.due[id := at + RETRY_DELAY_MS]), failedAt[id := at])
  {
    assert StreamOk(l, failedAt, id);
    var m := l.(now := at, claims := l.claims - multiset{id}, timers := l.timers + multiset{id},
      due := l.due[id := at + RETRY_DELAY_MS]);
    var failures := failedAt[id := at];
    forall x
      ensures StreamOk(m, failures, x)
    {
      assert StreamOk(l, failedAt, x);
    }
  }

  lemma LockFires(l: Lock, failedAt: map<StreamId, nat>, id: StreamId, at: nat)
    requires LockOk(l, failedAt) && at >= l.now && l.timers[id] > 0 && id in l.due && at >= l.due[id]
    ensures LockOk(l.(now := at, inFlight := l.inFlight - {id}, timers := l.timers - multiset{id}), failedAt)
  {
    assert StreamOk(l, failedAt, id);
    forall x
      ensures StreamOk(l.(now := at, inFlight := l.inFlight - {id}, timers := l.timers - multiset{id}), failedAt, x)
    {
      assert StreamOk(l, failedAt, x);
    }
  }

  class ClaimLock {
    /** autoClaimInFlight. */
    var inFlight: set<StreamId>
    /** Running executeAutoClaim calls and pending release timers, as the event loop holds them. */
    var claims: multiset<StreamId>
    var timers: multiset<StreamId>
    var due: map<StreamId, nat>
    var now: nat

    ghost var log: seq<Entry>
    /** When the last claim of a stream failed. */
    ghost var failedAt: map<StreamId, nat>

    ghost predicate Valid()
      reads this
    {
      LockOk(State(), failedAt) && LogOk(log, claims, failedAt)
    }

    ghost function State(): Lock
      reads this
    {
      Lock(inFlight, claims, timers, due, now)
    }

    constructor ()
      ensures Valid() && inFlight == {} && claims == multiset{} && timers == multiset{} && log == [] && now == 0
    {
      inFlight, claims, timers, due, now := {}, multiset{}, multiset{}, map[], 0;
      log, failedAt := [], map[];
    }

    /** A matured stream is seen by a tick: skipped if locked, otherwise locked and claimed. */
    method BeginClaim(id: StreamId, at: nat) returns (started: bool)
      requires Valid() && at >= now
      modifies this
      ensures Valid() && now == at && timers == old(timers)
      ensures started <==> old(claims)[id] == 0 && old(timers)[id] == 0
      ensures started ==>
        claims == old(claims) + multiset{id} && inFlight == old(inFlight) + {id} && log == old(log) + [Started(id, at)]
      ensures !started ==> claims == old(claims) && inFlight == old(inFlight) && log == old(log)
    {
      hide LogOk, LockOk;
      LockBegins(State(), failedAt, id, at);
      now := at;
      if id in inFlight { return false; }
      LogStarted(log, claims, failedAt, id, at);
      inFlight := inFlight + {id};
      claims := claims + multiset{id};
      log := log + [Started(id, at)];
      started := true;
    }

    /** The claim returned: success unlocks at once, failure unlocks after thirty seconds. */
    method FinishClaim(id: StreamId, success: bool, at: nat)
      requires Valid() && at >= now && claims[id] > 0
      modifies this
      ensures Valid() && now == at && claims == old(claims) - multiset{id} && log == old(log) + [Ended(id, success, at)]
      ensures success ==> inFlight == old(inFlight) - {id} && timers == old(timers)
      ensures !success ==> inFlight == old(inFlight) && timers == old(timers) + multiset{id}
    {
      hide LogOk, LockOk;
      if !success {
        LockFails(State(), failedAt, id, at);
        LogEnded(log, claims, failedAt, id, success, at);
        now, claims := at, claims - multiset{id};
        log := log + [Ended(id, success, at)];
        timers := timers + multiset{id};
        due := due[id := at + RETRY_DELAY_MS];
        failedAt := failedAt[id := at];
      } else {
        LockSucceeds(State(), failedAt, id, at);
        LogEnded(log, claims, failedAt, id, success, at);
        now, claims := at, claims - multiset{id};
        log := log + [Ended(id, success, at)];
        inFlight := inFlight - {id};
      }
    }

    /** The release timer: it does not fire early. */
    method FireTimer(id: StreamId, at: nat)
      requires Valid() && at >= now && timers[id] > 0 && id in due && at >= due[id]
      modifies this
      ensures Valid() && now == at && claims == old(claims) && log == old(log)
      ensures timers == old(timers) - multiset{id} && inFlight == old(inFlight) - {id}
    {
      hide LogOk, LockOk;
      LockFires(State(), failedAt, id, at);
      now := at;
      timers := timers - multiset{id};
      inFlight := inFlight - {id};
    }

    /**
     * Any interleaving of any number of ticks. Steps that cannot happen are skipped: a claim that is not running
     * cannot finish, a timer that is not set or not due cannot fire, and the clock does not run backwards.
     */
    method Run(events: seq<Event>)
      requires Valid()
      modifies this
      ensures Valid() && old(log) <= log && Spaced(log)
      ensures forall id :: claims[id] <= 1 && timers[id] <= 1 && (id in inFlight <==> claims[id] + timers[id] == 1)
    {
      for k := 0 to |events|
        invariant Valid() && old(log) <= log
      {
        match events[k] {
          case Begin(id, at) =>
            if at >= now { var started := BeginClaim(id, at); }
          case Finish(id, success, at) =>
            if at >= now && claims[id] > 0 { FinishClaim(id, success, at); }
          case Fire(id, at) =>
            if at >= now && timers[id] > 0 && id in due && at >= due[id] { FireTimer(id, at); }
        }
      }
      forall id
        ensures claims[id] <= 1 && timers[id] <= 1 && (id in inFlight <==> claims[id] + timers[id] == 1)
      {
        assert StreamOk(State(), failedAt, id);
      }
    }
  }
}
