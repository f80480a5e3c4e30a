/** The Go codec of a VAA: Marshal, Unmarshal and the byte layout that both sides rely on. */
module Vaa {
  import opened Bytes

  type u16 = x: int | 0 <= x < 0x1_0000
  type u32 = x: int | 0 <= x < 0x1_0000_0000
  type u64 = x: int | 0 <= x < 0x1_0000_0000_0000_0000
  type Bytes20 = b: bytes | |b| == 20 witness Zeros(20)
  type Bytes32 = b: bytes | |b| == 32 witness Zeros(32)
  type Bytes65 = b: bytes | |b| == 65 witness Zeros(65)

  /** A Go time.Time: seconds since the epoch and the fraction of a second. */
  datatype Time = Time(seconds: int, nanos: nat)

  datatype Signature = Signature(index: byte, data: Bytes65)

  datatype VAA = VAA(
    version: byte,
    guardianSetIndex: u32,
    signatures: seq<Signature>,
    timestamp: Time,
    nonce: u32,
    emitterChain: u16,
    emitterAddress: Bytes32,
    sequence: u64,
    consistencyLevel: byte,
    payload: bytes)

  // ---- The encoding ----

  function SigRecord(s: Signature): (b: bytes)
    ensures |b| == 66
  {
    [s.index] + s.data
  }

  function SigBytes(sigs: seq<Signature>): (b: bytes)
    ensures |b| == 66 * |sigs|
  {
    if sigs == [] then [] else SigBytes(sigs[..|sigs| - 1]) + SigRecord(sigs[|sigs| - 1])
  }

  /** The fixed 51 bytes that precede the payload. */
  function BodyHeader(v: VAA): (b: bytes)
    ensures |b| == 51
  {
    FromInt(v.timestamp.seconds % U32, 4) + FromInt(v.nonce, 4) + FromInt(v.emitterChain, 2)
    + v.emitterAddress + FromInt(v.sequence, 8) + [v.consistencyLevel]
  }

  function Body(v: VAA): bytes
  {
    BodyHeader(v) + v.payload
  }

  /** The count byte is truncated to eight bits, as a Go uint8 conversion is. */
  function Header(v: VAA): (b: bytes)
    ensures |b| == 6
  {
    [v.version] + FromInt(v.guardianSetIndex, 4) + [|v.signatures| % 256]
  }

  function Encode(v: VAA): bytes
  {
    Header(v) + SigBytes(v.signatures) + Body(v)
  }

  /** The VAAs that survive a round trip. */
  predicate Canonical(v: VAA)
  {
    && v.version == 1
    && |v.signatures| <= 255
    && 0 <= v.timestamp.seconds < U32
    && v.timestamp.nanos == 0
  }

  // ---- Layout ----

  lemma {:induction false} SigBytesAt(sigs: seq<Signature>, j: nat)
    requires j < |sigs|
    ensures SigBytes(sigs)[66 * j..66 * j + 66] == SigRecord(sigs[j])
    ensures SigBytes(sigs)[66 * j] == sigs[j].index
  {
    var n := |sigs| - 1;
    if j < n {
      SigBytesAt(sigs[..n], j);
      assert SigBytes(sigs)[66 * j..66 * j + 66] == SigBytes(sigs[..n])[66 * j..66 * j + 66];
    }
    assert SigBytes(sigs)[66 * j..66 * j + 66][0] == sigs[j].index;
  }

  lemma EncodeLayout(v: VAA)
    ensures var d, n := Encode(v), |v.signatures|;
      && |d| == 57 + 66 * n + |v.payload|
      && d[0] == v.version && d[1..5] == FromInt(v.guardianSetIndex, 4) && d[5] == n % 256
      && d[6..6 + 66 * n] == SigBytes(v.signatures)
      && d[6 + 66 * n..] == Body(v)
  {
    var d, n := Encode(v), |v.signatures|;
    assert d[..6] == Header(v);
    assert d[1..5] == Header(v)[1..5];
  }

  /** Signature record `j` of an encoded VAA. */
  lemma EncodedSignature(v: VAA, j: nat)
    requires j < |v.signatures|
    ensures 6 + 66 * j + 66 <= |Encode(v)|
    ensures Encode(v)[6 + 66 * j..6 + 66 * j + 66] == SigRecord(v.signatures[j])
    ensures Encode(v)[6 + 66 * j] == v.signatures[j].index
  {
    var d, n := Encode(v), |v.signatures|;
    EncodeLayout(v);
    SigBytesAt(v.signatures, j);
    SubSlice(d, 6, 6 + 66 * n, 66 * j, 66 * j + 66);
    assert d[6 + 66 * j] == d[6 + 66 * j..6 + 66 * j + 66][0];
  }

  lemma BodyLayout(v: VAA)
    ensures var b := Body(v);
      && b[..4] == FromInt(v.timestamp.seconds % U32, 4) && b[4..8] == FromInt(v.nonce, 4)
      && b[8..10] == FromInt(v.emitterChain, 2) && b[10..42] == v.emitterAddress
      && b[42..50] == FromInt(v.sequence, 8) && b[50] == v.consistencyLevel
      && b[51..] == v.payload
  {
    var b, h := Body(v), BodyHeader(v);
    assert b[..4] == h[..4] && b[4..8] == h[4..8] && b[8..10] == h[8..10] && b[10..42] == h[10..42]
        && b[42..50] == h[42..50] && b[50] == h[50];
  }

  // ---- The encoding is injective on canonical VAAs ----

  lemma {:induction false} SigBytesInjective(s: seq<Signature>, t: seq<Signature>)
    requires |s| == |t| && SigBytes(s) == SigBytes(t)
    ensures s == t
  {
    forall j | 0 <= j < |s|
      ensures s[j] == t[j]
    {
      SigBytesAt(s, j);
      SigBytesAt(t, j);
      assert SigRecord(s[j])[1..] == s[j].data && SigRecord(t[j])[1..] == t[j].data;
    }
  }

  lemma BodyInjective(v: VAA, w: VAA)
    requires Canonical(v) && Canonical(w) && Body(v) == Body(w)
    ensures v.timestamp == w.timestamp && v.nonce == w.nonce && v.emitterChain == w.emitterChain
    ensures v.emitterAddress == w.emitterAddress && v.sequence == w.sequence
    ensures v.consistencyLevel == w.consistencyLevel && v.payload == w.payload
  {
    BodyLayout(v);
    BodyLayout(w);
    SameInt(v.timestamp.seconds, w.timestamp.seconds, 4);
    SameInt(v.nonce, w.nonce, 4);
    SameInt(v.emitterChain, w.emitterChain, 2);
    SameInt(v.sequence, w.sequence, 8);
  }

  lemma EncodeInjective(v: VAA, w: VAA)
    requires Canonical(v) && Canonical(w) && Encode(v) == Encode(w)
    ensures v == w
  {
    EncodeLayout(v);
    EncodeLayout(w);
    SigBytesInjective(v.signatures, w.signatures);
    BodyInjective(v, w);
    SameInt(v.guardianSetIndex, w.guardianSetIndex, 4);
  }

  // ---- Marshal and Unmarshal ----

  method Marshal(v: VAA) returns (buf: bytes)
    ensures buf == Encode(v)
  {
    buf := [v.version] + FromInt(v.guardianSetIndex, 4);
    buf := buf + [|v.signatures| % 256];
    for i := 0 to |v.signatures|
      invariant buf == Header(v) + SigBytes(v.signatures[..i])
    {
      assert v.signatures[..i + 1][..i] == v.signatures[..i];
      buf := buf + [v.signatures[i].index];
      buf := buf + v.signatures[i].data;
    }
    assert v.signatures[..|v.signatures|] == v.signatures;
    buf := buf + Body(v);
  }

  lemma Reassembled(data: bytes, pos: nat, seconds: bytes, nonce: bytes, chain: bytes, emitter: bytes, sequence: bytes,
                    level: byte)
    requires pos + 51 <= |data|
    requires seconds == data[pos..pos + 4] && nonce == data[pos + 4..pos + 8] && chain == data[pos + 8..pos + 10]
    requires emitter == data[pos + 10..pos + 42] && sequence == data[pos + 42..pos + 50] && level == data[pos + 50]
    ensures seconds + nonce + chain + emitter + sequence + [level] + data[pos + 51..] == data[pos..]
  {
  }

  /** Reads the body from `pos` on, field by field; a field cut short is an error. */
  method UnmarshalBody(data: bytes, pos: nat, version: byte, setIndex: u32,
                       sigs: seq<Signature>) returns (r: Option<VAA>)
    requires pos <= |data|
    ensures r.Some? <==> |data| - pos >= 51
    ensures r.Some? ==> Body(r.value) == data[pos..] && r.value.version == version
    ensures r.Some? ==> r.value.guardianSetIndex == setIndex && r.value.signatures == sigs
    ensures r.Some? ==> 0 <= r.value.timestamp.seconds < U32 && r.value.timestamp.nanos == 0
  {
    if |data| - pos < 4 { return None; }
    var seconds := data[pos..pos + 4];
    if |data| - pos < 8 { return None; }
    var nonce := data[pos + 4..pos + 8];
    if |data| - pos < 10 { return None; }
    var chain := data[pos + 8..pos + 10];
    if |data| - pos < 42 { return None; }
    var emitter := data[pos + 10..pos + 42];
    if |data| - pos < 50 { return None; }
    var sequence := data[pos + 42..pos + 50];
    if |data| - pos < 51 { return None; }
    var level := data[pos + 50];
    var payload := data[pos + 51..];
    Fits(seconds, 4);
    Fits(nonce, 4);
    Fits(chain, 2);
    Fits(sequence, 8);
    var v := VAA(version, setIndex, sigs, Time(ToInt(seconds), 0), ToInt(nonce), ToInt(chain), emitter,
                 ToInt(sequence), level, payload);
    Reassembled(data, pos, seconds, nonce, chain, emitter, sequence, level);
    r := Some(v);
  }

  /** Reads `count` signature records starting at byte 6. */
  method UnmarshalSignatures(data: bytes, count: byte) returns (r: Option<seq<Signature>>)
    requires |data| >= 6
    ensures r.Some? <==> |data| >= 6 + 66 * (count as int)
    ensures r.Some? ==> |r.value| == count && SigBytes(r.value) == data[6..6 + 66 * (count as int)]
  {
    var sigs: seq<Signature> := [];
    for i := 0 to count
      invariant |sigs| == i && 6 + 66 * i <= |data| && SigBytes(sigs) == data[6..6 + 66 * i]
    {
      var pos := 6 + 66 * i;
      if |data| < pos + 1 { return None; }
      var index := data[pos];
      if |data| < pos + 66 { return None; }
      var sig := Signature(index, data[pos + 1..pos + 66]);
      assert (sigs + [sig])[..i] == sigs;
      assert data[6..pos] + SigRecord(sig) == data[6..pos + 66];
      sigs := sigs + [sig];
    }
    r := Some(sigs);
  }

  /** Accepts exactly the well-sized version-1 strings, and re-encoding gives back the input. */
  method Unmarshal(data: bytes) returns (r: Option<VAA>)
    ensures r.Some? <==> |data| >= 57 && data[0] == 1 && |data| >= 57 + 66 * (data[5] as int)
    ensures r.Some? ==> Canonical(r.value) && Encode(r.value) == data
  {
    if |data| < 57 || data[0] != 1 { return None; }
    var setIndex := data[1..5];
    Fits(setIndex, 4);
    var count := data[5];
    var sigs := UnmarshalSignatures(data, count);
    if sigs == None { return None; }
    var pos := 6 + 66 * (count as int);
    r := UnmarshalBody(data, pos, data[0], ToInt(setIndex), sigs.value);
    if r.Some? {
      assert data[..6] == Header(r.value);
      assert data == data[..6] + data[6..pos] + data[pos..];
    }
  }

  /** Marshalling and unmarshalling gives the VAA back exactly when it is canonical. */
  method RoundTrip(v: VAA) returns (r: Option<VAA>)
    ensures r == Some(v) <==> Canonical(v)
  {
    var data := Marshal(v);
    r := Unmarshal(data);
    EncodeLayout(v);
    if r.Some? && Canonical(v) {
      EncodeInjective(v, r.value);
    }
  }
}
