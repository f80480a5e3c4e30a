/** Fortuna's hash chains: the reversed chain, and the lookup across rotated commitments. */
module HashChain {
  import opened Bytes

  type Hash = bytes -> bytes

  /** `h` applied `n` times. */
  function Iterate(h: Hash, n: nat, x: bytes): bytes
  {
    if n == 0 then x else h(Iterate(h, n - 1, x))
  }

  lemma {:induction false} IterateAdds(h: Hash, m: nat, n: nat, x: bytes)
    ensures Iterate(h, m, Iterate(h, n, x)) == Iterate(h, m + n, x)
  {
    if m != 0 {
      IterateAdds(h, m - 1, n, x);
    }
  }

  /** Index `i` holds the secret hashed `|chain| - i` times. */
  ghost predicate ChainOf(h: Hash, secret: bytes, chain: seq<bytes>)
  {
    forall i :: 0 <= i < |chain| ==> chain[i] == Iterate(h, |chain| - i, secret)
  }

  /** Hashing the value `k` places further on, `k` times, gives this one: a reveal can be checked. */
  lemma HashBack(h: Hash, secret: bytes, chain: seq<bytes>, i: nat, k: nat)
    requires ChainOf(h, secret, chain) && i + k < |chain|
    ensures Iterate(h, k, chain[i + k]) == chain[i]
  {
    IterateAdds(h, k, |chain| - (i + k), secret);
  }

  function Reversed(s: seq<bytes>): (r: seq<bytes>)
    ensures |r| == |s| && forall i :: 0 <= i < |s| ==> r[i] == s[|s| - 1 - i]
  {
    if s == [] then [] else [s[|s| - 1]] + Reversed(s[..|s| - 1])
  }

  class PebbleHashChain {
    ghost const h: Hash
    ghost const secret: bytes
    var hash: seq<bytes>
    var next: nat

    ghost predicate Valid()
      reads this
    {
      next <= |hash| && ChainOf(h, secret, hash)
    }

    /** Hashes the secret `length` times, at least once, and reverses the list. */
    constructor (h: Hash, secret: bytes, length: nat)
      ensures Valid() && next == 0 && this.h == h && this.secret == secret
      ensures |hash| == if length == 0 then 1 else length
    {
      this.h, this.secret := h, secret;
      var list := [h(secret)];
      assert Iterate(h, 1, secret) == h(Iterate(h, 0, secret));
      for i := 1 to if length == 0 then 1 else length
        invariant |list| == i && forall j :: 0 <= j < i ==> list[j] == Iterate(h, j + 1, secret)
      {
        list := list + [h(list[|list| - 1])];
      }
      hash := Reversed(list);
      next := 0;
    }

    /** Hands out the values in order, each once: the secret hashed one time less than before. */
    method Reveal() returns (r: Option<bytes>)
      requires Valid()
      modifies this`next
      ensures Valid()
      ensures r.Some? <==> old(next) < |hash|
      ensures r.Some? ==> r.value == Iterate(h, |hash| - old(next), secret) && next == old(next) + 1
      ensures r == None ==> next == old(next)
    {
      if next >= |hash| { return None; }
      r := Some(hash[next]);
      next := next + 1;
    }

    /** The secret hashed `|hash| - i` times; from `|hash|` on there is nothing to reveal. */
    method RevealIth(i: nat) returns (r: Option<bytes>)
      requires Valid()
      ensures r.Some? <==> i < |hash|
      ensures r.Some? ==> r.value == Iterate(h, |hash| - i, secret)
    {
      if i >= |hash| { return None; }
      r := Some(hash[i]);
    }

    /** Two reveals in a row: hashing the second gives the first. */
    method RevealTwice() returns (a: Option<bytes>, b: Option<bytes>)
      requires Valid()
      modifies this`next
      ensures Valid() && (a.Some? && b.Some? ==> h(b.value) == a.value)
    {
      a := Reveal();
      b := Reveal();
    }
  }

  // ---- Rotation ----

  ghost predicate Sorted(offsets: seq<nat>)
  {
    forall i, j :: 0 <= i < j < |offsets| ==> offsets[i] <= offsets[j]
  }

  /** Chain `k` is the one with the greatest offset not above the sequence number; of equal offsets, the last. */
  ghost predicate Governs(offsets: seq<nat>, sequence: nat, k: nat)
  {
    k < |offsets| && offsets[k] <= sequence && forall j :: k < j < |offsets| ==> offsets[j] > sequence
  }

  /** The number of leading offsets not above the sequence number, by bisection. */
  method PartitionPoint(offsets: seq<nat>, sequence: nat) returns (k: nat)
    requires Sorted(offsets)
    ensures k <= |offsets|
    ensures forall i :: 0 <= i < k ==> offsets[i] <= sequence
    ensures forall i :: k <= i < |offsets| ==> offsets[i] > sequence
  {
    var lo, hi := 0, |offsets|;
    while lo < hi
      invariant 0 <= lo <= hi <= |offsets|
      invariant forall i :: 0 <= i < lo ==> offsets[i] <= sequence
      invariant forall i :: hi <= i < |offsets| ==> offsets[i] > sequence
    {
      var mid := (lo + hi) / 2;
      if offsets[mid] <= sequence { lo := mid + 1; } else { hi := mid; }
    }
    k := lo;
  }

  datatype HashChainState = HashChainState(offsets: seq<nat>, chains: seq<PebbleHashChain>)

  ghost predicate WellFormed(s: HashChainState)
    reads s.chains
  {
    Sorted(s.offsets) && |s.offsets| == |s.chains| && forall k :: 0 <= k < |s.chains| ==> s.chains[k].Valid()
  }

  /** The sequence number lies in the chain: from its offset on, as many as the chain has values. */
  ghost predicate Covers(s: HashChainState, k: nat, sequence: nat)
    requires |s.offsets| == |s.chains|
    reads s.chains
  {
    Governs(s.offsets, sequence, k) && sequence - s.offsets[k] < |s.chains[k].hash|
  }

  /** Looks up the governing chain and reveals at the distance from its offset. */
  method Reveal(s: HashChainState, sequence: nat) returns (r: Option<bytes>)
    requires WellFormed(s)
    ensures r.Some? <==> exists k: nat :: Covers(s, k, sequence)
    ensures forall k: nat :: Covers(s, k, sequence) ==>
              && var chain := s.chains[k];
              && r == Some(Iterate(chain.h, |chain.hash| - (sequence - s.offsets[k]), chain.secret))
  {
    var point := PartitionPoint(s.offsets, sequence);
    if point == 0 { return None; }
    var k := point - 1;
    assert Governs(s.offsets, sequence, k);
    r := s.chains[k].RevealIth(sequence - s.offsets[k]);
    assert r.Some? <==> Covers(s, k, sequence);
  }

  /** Two reveals under the same chain: the later one hashes back to the earlier one. */
  method RevealsHashBack(s: HashChainState, sequence: nat, m: nat, ghost k: nat)
    returns (early: Option<bytes>, late: Option<bytes>)
    requires WellFormed(s)
    ensures Governs(s.offsets, sequence, k) && Covers(s, k, sequence + m) ==>
              early.Some? && late.Some? && Iterate(s.chains[k].h, m, late.value) == early.value
  {
    hide Iterate, ChainOf, Sorted;
    early := Reveal(s, sequence);
    late := Reveal(s, sequence + m);
    if Governs(s.offsets, sequence, k) && Covers(s, k, sequence + m) {
      assert Covers(s, k, sequence);
      ghost var chain := s.chains[k];
      IterateAdds(chain.h, m, |chain.hash| - (sequence + m - s.offsets[k]), chain.secret);
    }
  }
}
