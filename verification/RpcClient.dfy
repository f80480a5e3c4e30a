/** The keeper's failover RPC client: endpoint health, selection and the retry loop. */
module RpcClient {
  import opened Bytes

  const UNHEALTHY_THRESHOLD: nat := 3
  const RECOVERY_COOLDOWN_MS: int := 30000

  datatype Endpoint = Endpoint(weight: int, healthy: bool, failures: nat, lastFailureAt: int, lastSuccessAt: int,
                               avgResponseMs: real)

  datatype Answer = Answered | NetworkFailure | OtherFailure

  /** Healthy exactly while there were fewer than three failures in a row. */
  ghost predicate HealthMatches(e: Endpoint)
  {
    e.healthy <==> e.failures < UNHEALTHY_THRESHOLD
  }

  /** An endpoint that has been down for longer than the cooldown is given another chance. */
  function Recovered(e: Endpoint, now: int): Endpoint
  {
    if !e.healthy && now - e.lastFailureAt > RECOVERY_COOLDOWN_MS then e.(healthy := true, failures := 0) else e
  }

  /** The rolling average: the first response as it is, afterwards seven tenths old and three tenths new. */
  ghost predicate Averaged(before: real, response: real, after: real)
  {
    && (before == 0.0 ==> after == response)
    && (before != 0.0 ==> 10.0 * (after - before) == 3.0 * (response - before))
  }

  /** Steps forward from `c` to `g` on a ring of `n`. */
  ghost function Distance(c: nat, g: nat, n: nat): nat
    requires c < n && g < n
  {
    if c <= g then g - c else g - c + n
  }

  lemma RingIndex(c: nat, i: nat, n: nat)
    requires c < n && i < n
    ensures (c + i) % n == if c + i < n then c + i else c + i - n
  {
    if c + i >= n {
      QuotientUnique(c + i, n, 1, c + i - n);
    } else {
      QuotientUnique(c + i, n, 0, c + i);
    }
  }

  lemma RingNext(c: nat, n: nat)
    requires c < n
    ensures (c + 1) % n == if c + 1 < n then c + 1 else 0
  {
    if c + 1 < n {
      RingIndex(c, 1, n);
    } else {
      QuotientUnique(c + 1, n, 1, 0);
    }
  }

  class ResilientRpcClient {
    var endpoints: seq<Endpoint>
    var currentIndex: nat

    ghost predicate Valid()
      reads this
    {
      && (forall i :: 0 <= i < |endpoints| ==> HealthMatches(endpoints[i]))
      && (endpoints != [] ==> currentIndex < |endpoints|)
    }

    constructor (weights: seq<int>)
      ensures Valid() && |endpoints| == |weights| && forall i :: 0 <= i < |weights| ==> endpoints[i].healthy
    {
      endpoints := seq(|weights|, i requires 0 <= i < |weights| => Endpoint(weights[i], true, 0, 0, 0, 0.0));
      currentIndex := 0;
    }

    /** Marks every endpoint that has cooled down as healthy again. */
    method Recover(now: int)
      requires Valid()
      modifies this`endpoints
      ensures Valid() && |endpoints| == |old(endpoints)|
      ensures forall i :: 0 <= i < |endpoints| ==> endpoints[i] == Recovered(old(endpoints)[i], now)
    {
      for k := 0 to |endpoints|
        invariant |endpoints| == |old(endpoints)|
        invariant forall i :: 0 <= i < k ==> endpoints[i] == Recovered(old(endpoints)[i], now)
        invariant forall i :: k <= i < |endpoints| ==> endpoints[i] == old(endpoints)[i]
      {
        if !endpoints[k].healthy && now - endpoints[k].lastFailureAt > RECOVERY_COOLDOWN_MS {
          endpoints := endpoints[k := endpoints[k].(healthy := true, failures := 0)];
        }
      }
    }

    /** The first endpoint of the greatest weight. */
    method Heaviest() returns (best: nat)
      requires endpoints != []
      ensures best < |endpoints|
      ensures forall i :: 0 <= i < |endpoints| ==> endpoints[i].weight <= endpoints[best].weight
      ensures forall i :: 0 <= i < best ==> endpoints[i].weight < endpoints[best].weight
    {
      best := 0;
      for k := 1 to |endpoints|
        invariant best < k
        invariant forall i :: 0 <= i < k ==> endpoints[i].weight <= endpoints[best].weight
        invariant forall i :: 0 <= i < best ==> endpoints[i].weight < endpoints[best].weight
      {
        if !(endpoints[best].weight >= endpoints[k].weight) { best := k; }
      }
    }

    /** The healthy endpoint that comes first, going round from the current index. */
    method FirstHealthy() returns (r: Option<nat>)
      requires Valid()
      ensures r.Some? <==> exists i :: 0 <= i < |endpoints| && endpoints[i].healthy
      ensures r.Some? ==> r.value < |endpoints| && endpoints[r.value].healthy
      ensures r.Some? ==> forall i :: 0 <= i < |endpoints| && endpoints[i].healthy ==>
                Distance(currentIndex, r.value, |endpoints|) <= Distance(currentIndex, i, |endpoints|)
    {
      for i := 0 to |endpoints|
        invariant forall j :: 0 <= j < |endpoints| && endpoints[j].healthy ==>
                  Distance(currentIndex, j, |endpoints|) >= i
      {
        RingIndex(currentIndex, i, |endpoints|);
        var idx := (currentIndex + i) % |endpoints|;
        if endpoints[idx].healthy {
          return Some(idx);
        }
      }
      r := None;
    }

    /** Some endpoint is healthy, or has cooled down. */
    ghost predicate Usable(now: int)
      reads this
    {
      exists i :: 0 <= i < |endpoints| && Recovered(endpoints[i], now).healthy
    }

    /** Round robin from the current index to the first healthy endpoint; if all are down, the heaviest is reset. */
    method GetBestEndpoint(now: int) returns (r: Option<nat>)
      requires Valid()
      modifies this
      ensures Valid() && |endpoints| == |old(endpoints)|
      ensures r.Some? <==> endpoints != []
      ensures r.Some? ==> r.value < |endpoints| && endpoints[r.value].healthy
      ensures old(Usable(now)) ==>
        && currentIndex == old(currentIndex)
        && (forall i :: 0 <= i < |endpoints| ==> endpoints[i] == Recovered(old(endpoints)[i], now))
        && (r.Some? ==> forall i :: 0 <= i < |endpoints| && endpoints[i].healthy ==>
              Distance(currentIndex, r.value, |endpoints|) <= Distance(currentIndex, i, |endpoints|))
      ensures !old(Usable(now)) && r.Some? ==>
        && currentIndex == r.value
        && (forall i :: 0 <= i < |endpoints| ==> endpoints[i].weight <= endpoints[r.value].weight)
        && (forall i :: 0 <= i < |endpoints| && i != r.value ==> endpoints[i] == old(endpoints)[i])
      // While another endpoint can be used, one that is down stays so, and is not picked, for 30 seconds and no longer
      ensures forall i, j :: 0 <= i < |endpoints| && 0 <= j < |endpoints| && i != j ==>
        var down, other := old(endpoints)[i], old(endpoints)[j];
        !down.healthy && (other.healthy || now > other.lastFailureAt + 30000) ==>
          if now > down.lastFailureAt + 30000 then endpoints[i] == down.(healthy := true, failures := 0)
          else r != Some(i) && endpoints[i] == down
    {
      Recover(now);
      r := FirstHealthy();
      if r.Some? || endpoints == [] { return; }
      var best := Heaviest();
      endpoints := endpoints[best := endpoints[best].(healthy := true, failures := 0)];
      currentIndex := best;
      r := Some(best);
    }

    method RotateEndpoint()
      requires Valid() && endpoints != []
      modifies this`currentIndex
      ensures Valid() && currentIndex == if old(currentIndex) + 1 < |endpoints| then old(currentIndex) + 1 else 0
    {
      RingNext(currentIndex, |endpoints|);
      currentIndex := (currentIndex + 1) % |endpoints|;
    }

    method RecordSuccess(i: nat, now: int, responseMs: int)
      requires Valid() && i < |endpoints|
      modifies this`endpoints
      ensures Valid() && |endpoints| == |old(endpoints)|
      ensures endpoints == old(endpoints)[i := old(endpoints)[i].(
                healthy := true, failures := 0, lastSuccessAt := now, avgResponseMs := endpoints[i].avgResponseMs)]
      ensures Averaged(old(endpoints)[i].avgResponseMs, responseMs as real, endpoints[i].avgResponseMs)
    {
      var e, ms := endpoints[i], responseMs as real;
      var average := if e.avgResponseMs == 0.0 then ms else e.avgResponseMs * 0.7 + ms * 0.3;
      endpoints := endpoints[i := e.(healthy := true, failures := 0, lastSuccessAt := now, avgResponseMs := average)];
    }

    method RecordFailure(i: nat, now: int)
      requires Valid() && i < |endpoints|
      modifies this`endpoints
      ensures Valid() && |endpoints| == |old(endpoints)|
      ensures endpoints[i] == old(endpoints)[i].(
                failures := old(endpoints)[i].failures + 1, lastFailureAt := now, healthy := endpoints[i].healthy)
      ensures endpoints[i].healthy <==> old(endpoints)[i].failures < 2
      ensures forall j :: 0 <= j < |endpoints| && j != i ==> endpoints[j] == old(endpoints)[j]
    {
      var e := endpoints[i].(failures := endpoints[i].failures + 1, lastFailureAt := now);
      if e.failures >= UNHEALTHY_THRESHOLD {
        e := e.(healthy := false);
      }
      endpoints := endpoints[i := e];
    }

    /** An endpoint is probed in the background if it is down and has cooled down. */
    predicate ProbeDue(i: nat, now: int)
      requires i < |endpoints|
      reads this
    {
      !endpoints[i].healthy && now - endpoints[i].lastFailureAt >= RECOVERY_COOLDOWN_MS
    }

    /** The probe started at `started` came back; what happened to the endpoint meanwhile is not looked at. */
    method ProbeEnded(i: nat, started: int, now: int, responseMs: int, answered: bool)
      requires Valid() && i < |endpoints|
      modifies this`endpoints
      ensures Valid() && |endpoints| == |old(endpoints)|
      ensures forall j :: 0 <= j < |endpoints| && j != i ==> endpoints[j] == old(endpoints)[j]
      ensures answered ==> endpoints[i].healthy && endpoints[i].failures == 0 && endpoints[i].lastSuccessAt == now
      ensures !answered ==> endpoints[i] == old(endpoints)[i].(lastFailureAt := started)
    {
      if answered {
        RecordSuccess(i, now, responseMs);
      } else {
        endpoints := endpoints[i := endpoints[i].(lastFailureAt := started)];
      }
    }

    /** A probe with nothing in between. */
    method HealthCheck(i: nat, started: int, now: int, responseMs: int, answered: bool)
      requires Valid() && i < |endpoints|
      modifies this`endpoints
      ensures Valid() && |endpoints| == |old(endpoints)|
      ensures forall j :: 0 <= j < |endpoints| && j != i ==> endpoints[j] == old(endpoints)[j]
      ensures var e := old(endpoints)[i];
        if !e.healthy && started >= e.lastFailureAt + 30000 then endpoints[i].healthy <==> answered
        else endpoints == old(endpoints)
    {
      if ProbeDue(i, started) {
        ProbeEnded(i, started, now, responseMs, answered);
      }
    }

    /**
     * One call, retried with failover. `answers(attempt, endpoint)` is what the endpoint does in that attempt
     * and `clock(2 * attempt)` and `clock(2 * attempt + 1)` are when it starts and
     * ends. If endpoint `g` starts healthy and always answers, every failure elsewhere is a network failure and
     * there are as many retries as endpoints, the call succeeds, no later than when the rotation reaches `g`.
     */
    method Execute(answers: (nat, nat) -> Answer, clock: nat -> int, maxRetries: nat, ghost g: nat)
      returns (ok: bool, attempts: nat)
      requires Valid()
      modifies this
      ensures Valid() && attempts <= maxRetries && |endpoints| == |old(endpoints)|
      ensures ok ==> exists i :: 0 <= i < |endpoints| && answers(attempts, i) == Answered
      ensures !ok ==> attempts == maxRetries || endpoints == []
      ensures Reachable(old(endpoints), g, answers) && maxRetries >= |old(endpoints)| ==>
                ok && 1 <= attempts <= Distance(old(currentIndex), g, |old(endpoints)|) + 1 <= |old(endpoints)|
    {
      ghost var n, start := |endpoints|, currentIndex;
      ghost var good := Reachable(endpoints, g, answers) && maxRetries >= n;
      ok, attempts := false, 0;
      while attempts < maxRetries && !ok
        invariant Valid() && |endpoints| == n && attempts <= maxRetries
        invariant ok ==> exists i :: 0 <= i < n && answers(attempts, i) == Answered
        invariant good ==> endpoints[g].healthy && currentIndex < n
        invariant good && !ok ==> attempts + Distance(currentIndex, g, n) == Distance(start, g, n)
        invariant good && ok ==> 1 <= attempts <= Distance(start, g, n) + 1
        decreases maxRetries - attempts, !ok
      {
        ok := Attempt(answers, clock, attempts + 1, g, good);
        if !ok && endpoints == [] { return; }
        attempts := attempts + 1;
      }
    }

    /** One attempt: pick, call, record, and rotate after a network failure. */
    method Attempt(answers: (nat, nat) -> Answer, clock: nat -> int, attempt: nat, ghost g: nat,
                   ghost good: bool) returns (ok: bool)
      requires Valid() && (good ==> Reachable(endpoints, g, answers))
      modifies this
      ensures Valid() && |endpoints| == |old(endpoints)|
      ensures ok ==> exists i :: 0 <= i < |endpoints| && answers(attempt, i) == Answered
      ensures good ==> endpoints[g].healthy
      ensures good && old(currentIndex) == g ==> ok
      ensures good && !ok ==> Distance(currentIndex, g, |endpoints|) + 1 == Distance(old(currentIndex), g, |endpoints|)
    {
      if good { assert Recovered(endpoints[g], clock(2 * attempt)).healthy; }
      var pick := GetBestEndpoint(clock(2 * attempt));
      if pick == None { return false; }
      var i := pick.value;
      assert good && currentIndex == g ==> Distance(currentIndex, g, |endpoints|) == 0;
      if answers(attempt, i) == Answered {
        RecordSuccess(i, clock(2 * attempt + 1), clock(2 * attempt + 1) - clock(2 * attempt));
        return true;
      }
      assert good ==> i != g;
      RecordFailure(i, clock(2 * attempt + 1));
      if answers(attempt, i) == NetworkFailure {
        RotateEndpoint();
      }
      ok := false;
    }

    /** Any interleaving of calls in flight and background checks; a probe may return long after it was due. */
    method Interleave(events: seq<Event>)
      requires Valid()
      modifies this
      ensures Valid() && |endpoints| == |old(endpoints)|
    {
      for k := 0 to |events|
        invariant Valid() && |endpoints| == |old(endpoints)|
      {
        match events[k] {
          case Pick(now) => var r := GetBestEndpoint(now);
          case Succeeded(i, now, ms) => if i < |endpoints| { RecordSuccess(i, now, ms); }
          case Failed(i, now, network) =>
            if i < |endpoints| {
              RecordFailure(i, now);
              if network { RotateEndpoint(); }
            }
          case ProbeReturned(i, started, now, ms, answered) =>
            if i < |endpoints| { ProbeEnded(i, started, now, ms, answered); }
        }
      }
    }
  }

  /** The atomic pieces between two awaits. */
  datatype Event =
    | Pick(now: int)
    | Succeeded(endpoint: nat, now: int, responseMs: int)
    | Failed(endpoint: nat, now: int, network: bool)
    | ProbeReturned(endpoint: nat, started: int, now: int, responseMs: int, answered: bool)

  /** Endpoint `g` is healthy and always answers; elsewhere there are answers and network failures only. */
  ghost predicate Reachable(endpoints: seq<Endpoint>, g: nat, answers: (nat, nat) -> Answer)
  {
    && g < |endpoints| && endpoints[g].healthy
    && (forall a :: answers(a, g) == Answered)
    && (forall a, i :: answers(a, i) != OtherFailure)
  }
}
