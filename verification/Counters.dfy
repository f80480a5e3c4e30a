/** The sequence counters of publishMessage: one blob per sender, and the log of the numbers handed out. */
module Counters {
  import opened Bytes
  import opened Cryptography
  import opened LocalBlob
  import opened Replay
  import opened TmplSig

  /** A published message: who sent it, and its number. */
  type Publication = (bytes, nat)

  /** The number of messages in a sender's blob. */
  ghost function Counter(c: Crypto, app: App, local: map<bytes, Local>, sender: bytes): nat
    requires ValidApp(app) && AllWellFormed(local)
  {
    var a := SigAddress(c, app, 0, sender);
    if a in local then ToInt(Flat(local[a])[..8]) else 0
  }

  /** How often the sender occurs in the log. */
  ghost function Count(published: seq<Publication>, sender: bytes): nat
  {
    if published == [] then 0
    else Count(published[..|published| - 1], sender) + if published[|published| - 1].0 == sender then 1 else 0
  }

  /** Every number is one more than the sender's messages before it. */
  ghost predicate Numbered(published: seq<Publication>)
  {
    forall i :: 0 <= i < |published| ==> published[i].1 == Count(published[..i], published[i].0) + 1
  }

  /** The stored counters are the lengths of the senders' logs. */
  ghost predicate CountersOk(c: Crypto, app: App, local: map<bytes, Local>, published: seq<Publication>)
    requires ValidApp(app) && AllWellFormed(local)
  {
    && Numbered(published)
    && forall s: bytes :: |s| == 32 ==> Counter(c, app, local, s) == Count(published, s)
  }

  lemma CounterIsCount(c: Crypto, app: App, local: map<bytes, Local>, published: seq<Publication>, sender: bytes)
    requires ValidApp(app) && AllWellFormed(local) && CountersOk(c, app, local, published) && |sender| == 32
    ensures Counter(c, app, local, sender) == Count(published, sender) && Numbered(published)
  {
    hide Counter, Count, Numbered;
  }

  lemma CountLast(published: seq<Publication>, p: Publication, sender: bytes)
    ensures Count(published + [p], sender) == Count(published, sender) + if p.0 == sender then 1 else 0
  {
    assert (published + [p])[..|published|] == published;
  }

  lemma NumberedLast(published: seq<Publication>, sender: bytes)
    requires Numbered(published)
    ensures Numbered(published + [(sender, Count(published, sender) + 1)])
  {
    var more := published + [(sender, Count(published, sender) + 1)];
    forall i | 0 <= i < |more|
      ensures more[i].1 == Count(more[..i], more[i].0) + 1
    {
      assert more[..i] == published[..i];
      assert published[..|published|] == published;
    }
  }

  lemma NumberedPrefix(published: seq<Publication>, n: nat)
    requires Numbered(published) && n <= |published|
    ensures Numbered(published[..n])
  {
    forall i | 0 <= i < n
      ensures published[..n][i].1 == Count(published[..n][..i], published[..n][i].0) + 1
    {
      assert published[..n][..i] == published[..i];
    }
  }

  /** No number of a sender goes beyond its count. */
  lemma {:induction false} NumberBound(published: seq<Publication>, i: nat)
    requires Numbered(published) && i < |published|
    ensures 1 <= published[i].1 <= Count(published, published[i].0)
    decreases |published|
  {
    var n := |published| - 1;
    if i < n {
      NumberedPrefix(published, n);
      NumberBound(published[..n], i);
    }
  }

  /** Numbers of one sender grow. */
  lemma NumbersGrow(published: seq<Publication>, i: nat, j: nat)
    requires Numbered(published) && i < j < |published| && published[i].0 == published[j].0
    ensures published[i].1 < published[j].1
  {
    NumberedPrefix(published, j);
    NumberBound(published[..j], i);
  }

  lemma {:induction false} NumberFound(published: seq<Publication>, sender: bytes, number: nat) returns (i: nat)
    requires Numbered(published) && 1 <= number <= Count(published, sender)
    ensures i < |published| && published[i] == (sender, number)
    decreases |published|
  {
    var n := |published| - 1;
    NumberedPrefix(published, n);
    i := n;
    if number <= Count(published[..n], sender) {
      i := NumberFound(published[..n], sender, number);
    }
  }

  /** No gap and no repeat: every number up to the sender's count was handed out exactly once. */
  lemma EachNumberOnce(published: seq<Publication>, sender: bytes, number: nat) returns (i: nat)
    requires Numbered(published) && 1 <= number <= Count(published, sender)
    ensures i < |published| && published[i] == (sender, number)
    ensures forall j :: 0 <= j < |published| && published[j] == (sender, number) ==> j == i
  {
    i := NumberFound(published, sender, number);
    hide Numbered, Count;
    forall j | 0 <= j < |published| && published[j] == (sender, number)
      ensures j == i
    {
      if j < i {
        NumbersGrow(published, j, i);
      } else if i < j {
        NumbersGrow(published, i, j);
      }
    }
  }

  // ---- What keeps the counters ----

  /** The account is not a sender's blob. */
  ghost predicate NoCounter(c: Crypto, app: App, a: bytes)
    requires ValidApp(app)
  {
    forall s: bytes :: |s| == 32 ==> SigAddress(c, app, 0, s) != a
  }

  lemma OtherThanCounter(c: Crypto, app: App, index: nat, emitter: bytes)
    requires ValidApp(app) && CollisionFree(c) && |emitter| != 32
    ensures NoCounter(c, app, SigAddress(c, app, index, emitter))
  {
    forall s: bytes | |s| == 32
      ensures SigAddress(c, app, 0, s) != SigAddress(c, app, index, emitter)
    {
      SlotsDoNotAlias(c, app, 0, s, index, emitter);
    }
  }

  /** Writes to other slots, and opting in with zeros, keep the counters. */
  lemma CountersKept(c: Crypto, app: App, local: map<bytes, Local>, a: bytes, l: Local, published: seq<Publication>)
    requires ValidApp(app) && AllWellFormed(local) && WellFormed(l) && CountersOk(c, app, local, published)
    requires NoCounter(c, app, a) || (a !in local && Flat(l) == Zeros(MAX_BYTES))
    ensures CountersOk(c, app, local[a := l], published)
  {
    hide SigAddress, Numbered, Count, ToInt;
    forall s: bytes | |s| == 32
      ensures Counter(c, app, local[a := l], s) == Count(published, s)
    {
      assert Counter(c, app, local, s) == Count(published, s);
      if SigAddress(c, app, 0, s) == a {
        assert Zeros(MAX_BYTES)[..8] == Zeros(8);
        ToIntPadded(8, []);
        assert Zeros(8) + [] == Zeros(8);
        NothingIsZero();
      }
    }
  }

  lemma NothingIsZero()
    ensures ToInt([]) == 0
  {
  }

  /** A sender's counter moved on by one: its log grows by that number, other senders' counters stay. */
  lemma CountersAdvanced(c: Crypto, app: App, local: map<bytes, Local>, sender: bytes, l: Local,
                         published: seq<Publication>)
    requires ValidApp(app) && CollisionFree(c) && AllWellFormed(local) && WellFormed(l)
    requires CountersOk(c, app, local, published)
    requires |sender| == 32 && Count(published, sender) + 1 < U64
    requires Flat(l)[..8] == FromInt(Count(published, sender) + 1, 8)
    ensures var next := Count(published, sender) + 1;
      CountersOk(c, app, local[SigAddress(c, app, 0, sender) := l], published + [(sender, next)])
  {
    hide SigAddress, CollisionFree, Count, Numbered, ToInt, FromInt, Flat;
    var next := Count(published, sender) + 1;
    var a, more := SigAddress(c, app, 0, sender), published + [(sender, next)];
    NumberedLast(published, sender);
    Reads(next, 8);
    var after := local[a := l];
    forall s: bytes | |s| == 32
      ensures Counter(c, app, after, s) == Count(more, s)
    {
      CountLast(published, (sender, next), s);
      SlotsDoNotAlias(c, app, 0, s, 0, sender);
      assert Counter(c, app, local, s) == Count(published, s);
      assert s == sender ==> Counter(c, app, after, s) == ToInt(Flat(l)[..8]);
      assert s != sender ==> Counter(c, app, after, s) == Counter(c, app, local, s);
    }
  }
}
