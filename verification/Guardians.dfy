/** Go's guardian-set update: its payload, the governance VAA around it, and where its fields end up. */
module Guardians {
  import opened Bytes
  import opened Vaa

  /** "Core", left padded to 32 bytes. */
  const CORE_MODULE: bytes := Zeros(28) + [0x43, 0x6f, 0x72, 0x65]
  const GOVERNANCE_EMITTER: Bytes32 := Zeros(31) + [4]
  const GOVERNANCE_CHAIN: u16 := 1

  /** The keys one after the other. */
  function KeyBytes(keys: seq<Bytes20>): (b: bytes)
    ensures |b| == 20 * |keys|
  {
    if keys == [] then [] else KeyBytes(keys[..|keys| - 1]) + keys[|keys| - 1]
  }

  lemma {:induction false} KeyBytesAt(keys: seq<Bytes20>, g: nat)
    requires g < |keys|
    ensures KeyBytes(keys)[20 * g..20 * g + 20] == keys[g]
  {
    var n := |keys| - 1;
    if g < n {
      KeyBytesAt(keys[..n], g);
      assert KeyBytes(keys)[20 * g..20 * g + 20] == KeyBytes(keys[..n])[20 * g..20 * g + 20];
    }
  }

  /** The stored key bytes determine the ordered key list. */
  lemma KeyBytesInjective(s: seq<Bytes20>, t: seq<Bytes20>)
    requires |s| == |t| && KeyBytes(s) == KeyBytes(t)
    ensures s == t
  {
    forall g | 0 <= g < |s|
      ensures s[g] == t[g]
    {
      KeyBytesAt(s, g);
      KeyBytesAt(t, g);
    }
  }

  datatype SetUpdate = SetUpdate(newIndex: u32, keys: seq<Bytes20>)

  /** What precedes the key count: module, action 2, chain 0 for every chain, and the new index. */
  function UpdateHeader(u: SetUpdate): (b: bytes)
    ensures |b| == 39
  {
    CORE_MODULE + [2] + FromInt(0, 2) + FromInt(u.newIndex, 4)
  }

  /** Go truncates the key count to eight bits. */
  function UpdatePayload(u: SetUpdate): bytes
  {
    UpdateHeader(u) + [|u.keys| % 256] + KeyBytes(u.keys)
  }

  method Serialize(u: SetUpdate) returns (buf: bytes)
    ensures buf == UpdatePayload(u)
  {
    buf := CORE_MODULE + [2];
    buf := buf + FromInt(0, 2);
    buf := buf + FromInt(u.newIndex, 4);
    buf := buf + [|u.keys| % 256];
    for i := 0 to |u.keys|
      invariant buf == UpdateHeader(u) + [|u.keys| % 256] + KeyBytes(u.keys[..i])
    {
      assert u.keys[..i + 1][..i] == u.keys[..i];
      buf := buf + u.keys[i];
    }
    assert u.keys[..|u.keys|] == u.keys;
  }

  function CreateGovernanceVAA(timestamp: Time, nonce: u32, sequence: u64, setIndex: u32, payload: bytes): VAA
  {
    VAA(1, setIndex, [], timestamp, nonce, GOVERNANCE_CHAIN, GOVERNANCE_EMITTER, sequence, 32, payload)
  }

  // ---- Byte offsets shared with the contracts ----

  /** Offset of the emitter chain in an encoded VAA. */
  function ChainOffset(vaa: bytes): (off: nat)
    requires |vaa| > 5
    ensures off >= 14
  {
    66 * (vaa[5] as int) + 14
  }

  /** The body of an encoded VAA starts eight bytes before its emitter chain. */
  lemma BodyAt(v: VAA, a: nat, b: nat)
    requires |v.signatures| <= 255 && a <= b <= |Body(v)|
    ensures var d := Encode(v); var start := ChainOffset(d) - 8;
      start + |Body(v)| == |d| && d[start + a..start + b] == Body(v)[a..b]
  {
    EncodeLayout(v);
    var d := Encode(v);
    SubSlice(d, ChainOffset(d) - 8, |d|, a, b);
  }

  /** Emitter and sequence of an encoded VAA are at the offsets the contracts use. */
  lemma EmitterAt(v: VAA)
    requires |v.signatures| <= 255
    ensures var d := Encode(v); var off := ChainOffset(d);
      && off + 43 + |v.payload| == |d|
      && d[off..off + 2] == FromInt(v.emitterChain, 2) && d[off + 2..off + 34] == v.emitterAddress
      && d[off + 34..off + 42] == FromInt(v.sequence, 8)
  {
    BodyLayout(v);
    BodyAt(v, 8, 10);
    BodyAt(v, 10, 42);
    BodyAt(v, 42, 50);
  }

  /** Any piece of the payload of an encoded VAA. */
  lemma PayloadAt(v: VAA, a: nat, b: nat)
    requires |v.signatures| <= 255 && a <= b <= |v.payload|
    ensures var d := Encode(v); var off := ChainOffset(d) + 43;
      off + |v.payload| == |d| && d[off + a..off + b] == v.payload[a..b]
  {
    BodyAt(v, 51 + a, 51 + b);
    assert Body(v)[51 + a..51 + b] == v.payload[a..b];
  }

  lemma WholePayload(v: VAA)
    requires |v.signatures| <= 255
    ensures |Encode(v)| > 5 && ChainOffset(Encode(v)) + 43 <= |Encode(v)|
    ensures Encode(v)[ChainOffset(Encode(v)) + 43..] == v.payload
  {
    PayloadAt(v, 0, |v.payload|);
    var d := Encode(v);
    assert d[ChainOffset(d) + 43..] == d[ChainOffset(d) + 43..ChainOffset(d) + 43 + |v.payload|];
  }

  lemma PayloadFields(u: SetUpdate)
    ensures var p := UpdatePayload(u);
      && |p| == 40 + 20 * |u.keys|
      && p[..32] == CORE_MODULE && p[32] == 2 && p[33..35] == FromInt(0, 2)
      && p[35..39] == FromInt(u.newIndex, 4) && p[39] == |u.keys| % 256 && p[40..] == KeyBytes(u.keys)
  {
    var p, h := UpdatePayload(u), UpdateHeader(u);
    assert p[..32] == h[..32] && p[32] == h[32] && p[33..35] == h[33..35] && p[35..39] == h[35..39];
    assert h[33..35] == FromInt(0, 2) && h[35..39] == FromInt(u.newIndex, 4);
  }
}
