/**
 * The paged local storage of an application: each opted-in account holds fifteen 127-byte pages
 * that together are used as one blob of 1905 bytes, and a "meta" tag.
 */
module LocalBlob {
  import opened Bytes

  const MAX_KEYS: nat := 15
  const PAGE: nat := 127
  const MAX_BYTES: nat := 1905
  /** Page keys are one byte, so positions repeat with this period. */
  const KEYS: nat := 256
  const KEY_SPACE: nat := 32512

  /** The local state of one account: the page under each one-byte key, and the tag. */
  datatype Local = Local(pages: map<nat, bytes>, meta: Option<bytes>)

  /** All fifteen pages are there, each 127 bytes long, and nothing else is. */
  ghost predicate WellFormed(l: Local)
  {
    && (forall k: nat :: k in l.pages <==> k < MAX_KEYS)
    && (forall k: nat :: k in l.pages ==> |l.pages[k]| == PAGE)
  }

  ghost predicate AllWellFormed(local: map<bytes, Local>)
  {
    forall a :: a in local ==> WellFormed(local[a])
  }

  /** The blob as one flat byte string. */
  ghost function Flat(l: Local): (f: bytes)
    requires WellFormed(l)
    ensures |f| == MAX_BYTES
  {
    seq(MAX_BYTES, i requires 0 <= i < MAX_BYTES => l.pages[i / PAGE][i % PAGE])
  }

  /** `f` with `b` written over it at `start`. */
  ghost function Splice(f: bytes, start: nat, b: bytes): (r: bytes)
    requires start + |b| <= |f|
    ensures |r| == |f|
  {
    f[..start] + b + f[start + |b|..]
  }

  // ---- Page arithmetic ----

  lemma PageIndex(k: nat, a: nat)
    requires k < MAX_KEYS && a < PAGE
    ensures (PAGE * k + a) / PAGE == k && (PAGE * k + a) % PAGE == a && PAGE * k + a < MAX_BYTES
  {
  }

  /** A piece of one page is a slice of the blob. */
  lemma PageSlice(l: Local, k: nat, a: nat, b: nat)
    requires WellFormed(l) && k < MAX_KEYS && a <= b <= PAGE
    ensures PAGE * k + b <= MAX_BYTES && l.pages[k][a..b] == Flat(l)[PAGE * k + a..PAGE * k + b]
  {
    forall j | 0 <= j < b - a
      ensures l.pages[k][a..b][j] == Flat(l)[PAGE * k + a..PAGE * k + b][j]
    {
      PageIndex(k, a + j);
    }
  }

  /** Replacing part of one page is a splice of the blob. */
  lemma PagePut(l: Local, k: nat, a: nat, chunk: bytes, page: bytes)
    requires WellFormed(l) && k < MAX_KEYS && a + |chunk| <= PAGE
    requires page == l.pages[k][..a] + chunk + l.pages[k][a + |chunk|..]
    ensures WellFormed(l.(pages := l.pages[k := page])) && PAGE * k + a + |chunk| <= MAX_BYTES
    ensures Flat(l.(pages := l.pages[k := page])) == Splice(Flat(l), PAGE * k + a, chunk)
  {
    var m := l.(pages := l.pages[k := page]);
    forall i | 0 <= i < MAX_BYTES
      ensures Flat(m)[i] == Splice(Flat(l), PAGE * k + a, chunk)[i]
    {
      if i / PAGE == k {
        assert i == PAGE * k + i % PAGE;
      } else if i < PAGE * k {
      } else {
        assert i >= PAGE * k + PAGE;
      }
    }
  }

  lemma SpliceAppend(f: bytes, start: nat, x: bytes, y: bytes)
    requires start + |x| + |y| <= |f|
    ensures Splice(Splice(f, start, x), start + |x|, y) == Splice(f, start, x + y)
  {
  }

  /** What a splice leaves at a range that it covers, or that it does not touch. */
  lemma SpliceSlice(f: bytes, start: nat, b: bytes, lo: nat, hi: nat)
    requires start + |b| <= |f| && lo <= hi <= |f|
    ensures hi <= start || start + |b| <= lo ==> Splice(f, start, b)[lo..hi] == f[lo..hi]
    ensures start <= lo && hi <= start + |b| ==> Splice(f, start, b)[lo..hi] == b[lo - start..hi - start]
  {
    var r := Splice(f, start, b);
    if hi <= start || start + |b| <= lo {
      assert forall i :: lo <= i < hi ==> r[i] == f[i];
    }
    if start <= lo && hi <= start + |b| {
      assert forall i :: lo <= i < hi ==> r[i] == b[i - start];
    }
  }

  // ---- Read and write loops ----

  /** After reading up to page `key`, the buffer is the blob from `bstart` to the end of the page before. */
  ghost predicate ReadTo(l: Local, bstart: nat, bend: nat, key: nat, buff: bytes)
    requires WellFormed(l)
  {
    var upto := if key <= bstart / PAGE then bstart else if key <= bend / PAGE then PAGE * key else bend;
    bstart <= upto <= MAX_BYTES && buff == Flat(l)[bstart..upto]
  }

  lemma ReadNext(l: Local, bstart: nat, bend: nat, key: nat, buff: bytes)
    requires WellFormed(l) && bstart <= bend && bstart / PAGE <= key <= bend / PAGE < MAX_KEYS
    requires ReadTo(l, bstart, bend, key, buff)
    ensures var start, stop := PieceStart(bstart, key), PieceStop(bend, key);
      start <= stop <= PAGE && ReadTo(l, bstart, bend, key + 1, buff + l.pages[key][start..stop])
  {
    var start, stop := PieceStart(bstart, key), PieceStop(bend, key);
    assert start <= stop;
    PageSlice(l, key, start, stop);
    var from, to := PAGE * key + start, PAGE * key + stop;
    assert Flat(l)[bstart..from] + Flat(l)[from..to] == Flat(l)[bstart..to];
  }

  function PieceStart(bstart: nat, key: nat): nat
  {
    if key == bstart / PAGE then bstart % PAGE else 0
  }

  function PieceStop(bend: nat, key: nat): nat
  {
    if key == bend / PAGE then bend % PAGE else PAGE
  }

  /** The range lies in the blob, in the same round of page keys. */
  predicate Within(bstart: nat, bend: nat)
  {
    bstart <= bend && bstart / KEY_SPACE == bend / KEY_SPACE && bend % KEY_SPACE < MAX_BYTES
  }

  /** Pages repeat: the pieces of a range are those of the range brought back by `w` rounds. */
  lemma SameRound(x: nat, w: nat)
    requires x / KEY_SPACE == w
    ensures x / PAGE == KEYS * w + x % KEY_SPACE / PAGE && x % PAGE == x % KEY_SPACE % PAGE
    ensures 0 <= x % KEY_SPACE / PAGE < KEYS
  {
    var y := x % KEY_SPACE;
    assert x == PAGE * (KEYS * w) + y;
    QuotientUnique(x, PAGE, KEYS * w + y / PAGE, y % PAGE);
  }

  /** The page loop of a read. */
  method ReadPages(l: Local, bstart: nat, bend: nat) returns (r: Option<bytes>)
    requires WellFormed(l) && bstart / PAGE <= bend / PAGE
    ensures r.Some? <==> Within(bstart, bend)
    ensures r.Some? ==> r.value == Flat(l)[bstart % KEY_SPACE..bend % KEY_SPACE]
  {
    var buff: bytes := [];
    var key := bstart / PAGE;
    ghost var w, from, to := bstart / KEY_SPACE, bstart % KEY_SPACE, bend % KEY_SPACE;
    ghost var same := bstart <= bend && bend / KEY_SPACE == w;
    SameRound(bstart, w);
    SameRound(bend, bend / KEY_SPACE);
    while key <= bend / PAGE
      invariant bstart / PAGE <= key <= bend / PAGE + 1
      invariant key > bstart / PAGE ==> bstart <= bend && key - KEYS * w <= MAX_KEYS
      invariant same && to < MAX_BYTES ==> ReadTo(l, from, to, key - KEYS * w, buff)
    {
      var start, stop := PieceStart(bstart, key), PieceStop(bend, key);
      ghost var page := key - KEYS * w;
      assert key % KEYS == page by { QuotientUnique(key, KEYS, w, page); }
      if key % KEYS !in l.pages || start > stop {
        return None;
      }
      if same && to < MAX_BYTES {
        ReadNext(l, from, to, page, buff);
      }
      buff := buff + l.pages[key % KEYS][start..stop];
      key := key + 1;
    }
    r := Some(buff);
  }

  /**
   * After writing up to page `key`, the first `written` bytes of the buffer are in the blob and nothing else changed.
   */
  ghost predicate WrittenTo(before: Local, l: Local, bstart: nat, buff: bytes, key: nat, written: nat)
    requires WellFormed(before)
  {
    var bend := bstart + |buff|;
    && WellFormed(l) && l.meta == before.meta && bend < MAX_BYTES
    && bstart + written == (if key <= bstart / PAGE then bstart else if key <= bend / PAGE then PAGE * key else bend)
    && written <= |buff|
    && Flat(l) == Splice(Flat(before), bstart, buff[..written])
  }

  lemma WriteNext(before: Local, l: Local, bstart: nat, buff: bytes, key: nat, written: nat)
    requires WellFormed(before) && WrittenTo(before, l, bstart, buff, key, written)
    requires bstart / PAGE <= key <= (bstart + |buff|) / PAGE
    ensures var start, stop := PieceStart(bstart, key), PieceStop(bstart + |buff|, key);
      && start <= stop <= PAGE && written + stop - start <= |buff| && key in l.pages
      && WrittenTo(before, l.(pages := l.pages[key := l.pages[key][..start] + buff[written..written + stop - start]
                                                      + l.pages[key][stop..]]),
                   bstart, buff, key + 1, written + stop - start)
  {
    var start, stop := PieceStart(bstart, key), PieceStop(bstart + |buff|, key);
    var chunk := buff[written..written + stop - start];
    PagePut(l, key, start, chunk, l.pages[key][..start] + chunk + l.pages[key][stop..]);
    SpliceAppend(Flat(before), bstart, buff[..written], chunk);
    assert buff[..written] + chunk == buff[..written + stop - start];
  }

  /** A write that goes past the last page, up to page `key`: the page it ends in is missing. */
  ghost predicate Overruns(l: Local, bstart: nat, buff: bytes, key: nat, written: nat)
  {
    var bend := bstart + |buff|;
    && MAX_BYTES <= bend && bstart / PAGE <= key <= bend / PAGE && bend / PAGE !in l.pages
    && written == if key == bstart / PAGE then 0 else PAGE * key - bstart
  }

  /** Every piece lies within the buffer; the piece of the last page is a partial one, so it is refused there. */
  lemma OverrunNext(l: Local, bstart: nat, buff: bytes, key: nat, written: nat, page: bytes)
    requires Overruns(l, bstart, buff, key, written)
    ensures var start, stop := PieceStart(bstart, key), PieceStop(bstart + |buff|, key);
      && start <= stop <= PAGE && written + stop - start <= |buff|
      && (key in l.pages || stop - start == PAGE ==>
            Overruns(l.(pages := l.pages[key := page]), bstart, buff, key + 1, written + stop - start))
  {
  }

  /** Puts a piece of the buffer into one page: a partial page is read back first, which needs the page to exist. */
  method WritePage(l: Local, key: nat, start: nat, stop: nat, piece: bytes) returns (r: Option<Local>)
    requires forall k :: k in l.pages ==> |l.pages[k]| == PAGE
    requires start <= stop <= PAGE && |piece| == stop - start
    ensures r == None <==> key !in l.pages && |piece| < PAGE
    ensures r.Some? && key in l.pages ==>
      r.value == l.(pages := l.pages[key := l.pages[key][..start] + piece + l.pages[key][stop..]])
    ensures r.Some? && key !in l.pages ==> r.value == l.(pages := l.pages[key := piece])
  {
    if stop != PAGE || start != 0 {
      if key !in l.pages {
        return None;
      }
      r := Some(l.(pages := l.pages[key := l.pages[key][..start] + piece + l.pages[key][stop..]]));
    } else {
      r := Some(l.(pages := l.pages[key := piece]));
      if key in l.pages {
        assert l.pages[key][..0] + piece + l.pages[key][PAGE..] == piece;
      }
    }
  }

  /** Writes page by page: partial pages are read back and patched, whole pages replaced. */
  method WritePages(before: Local, bstart: nat, buff: bytes) returns (r: Option<Local>, written: nat)
    requires WellFormed(before) && bstart + |buff| < KEY_SPACE
    ensures r.Some? <==> bstart + |buff| < MAX_BYTES
    ensures r.Some? ==> written == |buff| && WellFormed(r.value) && r.value.meta == before.meta
                        && Flat(r.value) == Splice(Flat(before), bstart, buff)
  {
    hide WrittenTo, Overruns, Flat, Splice, PieceStart, PieceStop, WellFormed;
    ghost var fits := bstart + |buff| < MAX_BYTES;
    var l, bend, key, count := before, bstart + |buff|, bstart / PAGE, 0;
    WriteBegins(before, bstart, buff);
    while key <= bend / PAGE
      invariant bstart / PAGE <= key <= bend / PAGE + 1 && count >= 0
      invariant forall k :: k in l.pages ==> |l.pages[k]| == PAGE
      invariant if fits then WrittenTo(before, l, bstart, buff, key, count) else Overruns(l, bstart, buff, key, count)
    {
      var start, stop := PieceStart(bstart, key), PieceStop(bend, key);
      if fits {
        WriteNext(before, l, bstart, buff, key, count);
      } else {
        OverrunNext(l, bstart, buff, key, count, []);
      }
      var piece := buff[count..count + stop - start];
      var put := WritePage(l, key, start, stop, piece);
      if put == None {
        return None, 0;
      }
      if !fits {
        OverrunNext(l, bstart, buff, key, count, put.value.pages[key]);
      }
      l, count, key := put.value, count + stop - start, key + 1;
    }
    WriteEnds(before, l, bstart, buff, key, count);
    r, written := Some(l), count;
  }

  lemma WriteBegins(before: Local, bstart: nat, buff: bytes)
    requires WellFormed(before) && bstart + |buff| < KEY_SPACE
    ensures bstart / PAGE <= (bstart + |buff|) / PAGE
    ensures forall k :: k in before.pages ==> |before.pages[k]| == PAGE
    ensures bstart + |buff| < MAX_BYTES ==> WrittenTo(before, before, bstart, buff, bstart / PAGE, 0)
    ensures bstart + |buff| >= MAX_BYTES ==> Overruns(before, bstart, buff, bstart / PAGE, 0)
  {
  }

  lemma WriteEnds(before: Local, l: Local, bstart: nat, buff: bytes, key: nat, written: nat)
    requires WellFormed(before) && key == (bstart + |buff|) / PAGE + 1
    ensures !Overruns(l, bstart, buff, key, written)
    ensures WrittenTo(before, l, bstart, buff, key, written) ==>
              written == |buff| && WellFormed(l) && l.meta == before.meta
                && Flat(l) == Splice(Flat(before), bstart, buff)
  {
    hide Flat, Splice, WellFormed;
    assert buff[..|buff|] == buff;
  }

  /** A blob operation that panics aborts its transaction, so the ledger is left as it was. */
  class AppStorage {
    var local: map<bytes, Local>

    ghost predicate Valid()
      reads this
    {
      AllWellFormed(local)
    }

    constructor ()
      ensures Valid() && local == map[]
    {
      local := map[];
    }

    /** Opting in clears the whole blob; the ledger refuses a second opt-in of the same account. */
    method Zero(acct: bytes) returns (ok: bool)
      requires Valid()
      modifies this
      ensures Valid()
      ensures ok <==> acct !in old(local)
      ensures !ok ==> local == old(local)
      ensures ok ==> acct in local && local == old(local)[acct := local[acct]]
                     && local[acct].meta == None && Flat(local[acct]) == Zeros(MAX_BYTES)
    {
      ok := acct !in local;
      if ok {
        var pages: map<nat, bytes> := map[];
        for i := 0 to MAX_KEYS
          invariant forall k: nat :: k in pages <==> k < i
          invariant forall k: nat :: k in pages ==> pages[k] == Zeros(PAGE)
        {
          pages := pages[i := Zeros(PAGE)];
        }
        local := local[acct := Local(pages, None)];
      }
    }

    method GetByte(acct: bytes, idx: nat) returns (b: Option<byte>)
      requires Valid()
      ensures b.Some? <==> acct in local && idx % KEY_SPACE < MAX_BYTES
      ensures b.Some? ==> b.value == Flat(local[acct])[idx % KEY_SPACE]
    {
      var key, offset := idx / PAGE % KEYS, idx % PAGE;
      assert idx % KEY_SPACE == PAGE * key + offset;
      if acct !in local || key !in local[acct].pages {
        return None;
      }
      PageIndex(key, offset);
      b := Some(local[acct].pages[key][offset]);
    }

    method SetByte(acct: bytes, idx: nat, b: byte) returns (ok: bool)
      requires Valid()
      modifies this
      ensures Valid()
      ensures ok <==> acct in old(local) && idx % KEY_SPACE < MAX_BYTES
      ensures !ok ==> local == old(local)
      ensures ok ==> acct in local && local == old(local)[acct := local[acct]]
                     && local[acct].meta == old(local[acct].meta)
                     && Flat(local[acct]) == Splice(Flat(old(local)[acct]), idx % KEY_SPACE, [b])
    {
      var key, offset := idx / PAGE % KEYS, idx % PAGE;
      assert idx % KEY_SPACE == PAGE * key + offset;
      if acct !in local || key !in local[acct].pages {
        return false;
      }
      var l := local[acct];
      var page := l.pages[key][..offset] + [b] + l.pages[key][offset + 1..];
      PagePut(l, key, offset, [b], page);
      local := local[acct := l.(pages := l.pages[key := page])];
      ok := true;
    }

    /**
     * Reads page by page. An end on a page boundary still touches the next page; an end in an earlier page than
     * the start touches nothing, not even the account.
     */
    method Read(acct: bytes, bstart: nat, bend: nat) returns (r: Option<bytes>)
      requires Valid()
      ensures r.Some? <==> bend / PAGE < bstart / PAGE || (acct in local && Within(bstart, bend))
      ensures r.Some? && bstart <= bend ==> r.value == Flat(local[acct])[bstart % KEY_SPACE..bend % KEY_SPACE]
      ensures r.Some? && bstart > bend ==> r.value == []
    {
      r := Some([]);
      if bstart / PAGE <= bend / PAGE {
        if acct !in local {
          return None;
        }
        r := ReadPages(local[acct], bstart, bend);
      }
    }

    /** Writes the buffer over the blob and returns its length; the end must stay below the blob's. */
    method Write(acct: bytes, bstart: nat, buff: bytes) returns (written: Option<nat>)
      requires Valid() && bstart + |buff| < KEY_SPACE
      modifies this
      ensures Valid()
      ensures written.Some? <==> acct in old(local) && bstart + |buff| < MAX_BYTES
      ensures written == None ==> local == old(local)
      ensures written.Some? ==> written.value == |buff| && acct in local
                                && local == old(local)[acct := local[acct]]
                                && local[acct].meta == old(local[acct].meta)
                                && Flat(local[acct]) == Splice(Flat(old(local)[acct]), bstart, buff)
    {
      if acct !in local {
        return None;
      }
      var l, count := WritePages(local[acct], bstart, buff);
      if l == None {
        return None;
      }
      local := local[acct := l.value];
      written := Some(count);
    }

    method SetMeta(acct: bytes, tag: bytes) returns (ok: bool)
      requires Valid()
      modifies this
      ensures Valid()
      ensures ok <==> acct in old(local)
      ensures !ok ==> local == old(local)
      ensures ok ==> local == old(local)[acct := old(local)[acct].(meta := Some(tag))]
      ensures ok ==> Flat(local[acct]) == Flat(old(local)[acct])
    {
      ok := acct in local;
      if ok {
        local := local[acct := local[acct].(meta := Some(tag))];
      }
    }
  }
}
