/**
 * Storage account addresses: the LEB128 encoder, the template splicer of the client and the
 * concatenation hashed on chain.
 */
module TmplSig {
  import opened Bytes
  import opened Cryptography

  // ---- Unsigned LEB128 ----

  /** The contracts' recursive encoder, which carries the byte produced one level up. */
  function EncodeUvarint(val: nat, b: bytes): bytes
    decreases val
  {
    b + if val >= 128 then EncodeUvarint(val / 128, [val % 128 + 128]) else [val % 256]
  }

  /** Unsigned LEB128 as section 7.6 of DWARF 5 defines it, and as the client's library encodes it. */
  function Leb128(n: nat): (b: bytes)
    ensures |b| > 0
  {
    if n < 128 then [n] else [n % 128 + 128] + Leb128(n / 128)
  }

  /** Decodes one number from the front and returns what follows. */
  function DecodeLeb128(b: bytes): Option<(nat, bytes)>
  {
    if b == [] then None
    else if b[0] < 128 then Some((b[0], b[1..]))
    else
      match DecodeLeb128(b[1..])
      case None => None
      case Some((high, rest)) => Some((b[0] - 128 + 128 * high, rest))
  }

  lemma {:induction false} UvarintIsLeb128(n: nat, b: bytes)
    ensures EncodeUvarint(n, b) == b + Leb128(n)
    decreases n
  {
    if n >= 128 {
      UvarintIsLeb128(n / 128, [n % 128 + 128]);
    }
  }

  lemma {:induction false} Leb128RoundTrip(n: nat, rest: bytes)
    ensures DecodeLeb128(Leb128(n) + rest) == Some((n, rest))
  {
    var b := Leb128(n) + rest;
    if n < 128 {
      assert b[1..] == rest;
    } else {
      Leb128RoundTrip(n / 128, rest);
      assert b[1..] == Leb128(n / 128) + rest;
    }
  }

  /** No encoding is a proper prefix of another. */
  lemma UvarintPrefixFree(m: nat, x: bytes, n: nat, y: bytes)
    requires EncodeUvarint(m, []) + x == EncodeUvarint(n, []) + y
    ensures m == n && x == y
  {
    UvarintIsLeb128(m, []);
    UvarintIsLeb128(n, []);
    assert [] + Leb128(m) == Leb128(m) && [] + Leb128(n) == Leb128(n);
    Leb128RoundTrip(m, x);
    Leb128RoundTrip(n, y);
  }

  /** A length-prefixed byte string is self-delimiting. */
  lemma LengthPrefixed(e: bytes, x: bytes, f: bytes, y: bytes)
    requires EncodeUvarint(|e|, []) + (e + x) == EncodeUvarint(|f|, []) + (f + y)
    ensures e == f && x == y
  {
    UvarintPrefixFree(|e|, e + x, |f|, f + y);
    assert (e + x)[..|e|] == e && (e + x)[|e|..] == x;
    assert (f + y)[..|f|] == f && (f + y)[|f|..] == y;
  }

  lemma CancelLeft(p: bytes, x: bytes, y: bytes)
    requires p + x == p + y
    ensures x == y
  {
    assert (p + x)[|p|..] == x && (p + y)[|p|..] == y;
  }

  // ---- Template splicing ----

  /** Program bytes with a zero byte at each label position; positions are sorted. */
  datatype Template = Template(code: bytes, positions: seq<nat>)

  ghost predicate ValidTemplate(t: Template)
  {
    && (forall i :: 0 <= i < |t.positions| ==> t.positions[i] < |t.code|)
    && (forall i, j :: 0 <= i < j < |t.positions| ==> t.positions[i] < t.positions[j])
  }

  datatype Value = IntValue(n: nat) | BytesValue(b: bytes)

  /** What replaces the zero byte of a label. */
  function Field(v: Value): bytes
  {
    match v
    case IntValue(n) => Leb128(n)
    case BytesValue(b) => Leb128(|b|) + b
  }

  /** First byte of chunk `idx`: just after the previous label. */
  function ChunkStart(t: Template, idx: nat): nat
    requires idx <= |t.positions|
  {
    if idx > 0 then t.positions[idx - 1] + 1 else 0
  }

  function ChunkStop(t: Template, idx: nat): nat
    requires idx <= |t.positions|
  {
    if idx < |t.positions| then t.positions[idx] else |t.code|
  }

  /** The template bytes between two neighbouring labels (get_bytecode_chunk). */
  function Chunk(t: Template, idx: nat): bytes
    requires ValidTemplate(t) && idx <= |t.positions|
  {
    t.code[ChunkStart(t, idx)..ChunkStop(t, idx)]
  }

  /** A label without a value keeps its zero byte. */
  function Slot(t: Template, values: map<nat, Value>, idx: nat): bytes
    requires ValidTemplate(t) && idx < |t.positions|
  {
    if idx in values then Field(values[idx]) else [t.code[t.positions[idx]]]
  }

  /** The first `k` chunks, each followed by its label's bytes. */
  function Interleaved(t: Template, values: map<nat, Value>, k: nat): bytes
    requires ValidTemplate(t) && k <= |t.positions|
  {
    if k == 0 then []
    else Interleaved(t, values, k - 1) + Chunk(t, k - 1) + Slot(t, values, k - 1)
  }

  /** The state of the splicing loop: `k` labels done, the rest of the template untouched. */
  ghost predicate Spliced(t: Template, values: map<nat, Value>, k: nat, shift: int, contract: bytes)
    requires ValidTemplate(t) && k <= |t.positions|
  {
    && shift == |Interleaved(t, values, k)| - ChunkStart(t, k)
    && contract == Interleaved(t, values, k) + t.code[ChunkStart(t, k)..]
  }

  /** The byte at `pos` replaced by the field. */
  function Place(contract: bytes, pos: nat, field: bytes): bytes
    requires pos < |contract|
  {
    contract[..pos] + field + contract[pos + 1..]
  }

  lemma SpliceNext(t: Template, values: map<nat, Value>, k: nat, shift: int, contract: bytes)
    requires ValidTemplate(t) && k < |t.positions| && Spliced(t, values, k, shift, contract)
    ensures 0 <= t.positions[k] + shift < |contract|
    ensures var slot := Slot(t, values, k);
      Spliced(t, values, k + 1, shift + |slot| - 1, Place(contract, t.positions[k] + shift, slot))
    ensures k !in values ==> Spliced(t, values, k + 1, shift, contract)
  {
    var done, slot, pos := Interleaved(t, values, k), Slot(t, values, k), t.positions[k] + shift;
    assert contract[..pos] == done + Chunk(t, k);
    assert contract[pos + 1..] == t.code[ChunkStart(t, k + 1)..];
    assert k !in values ==> Place(contract, pos, slot) == contract;
  }

  lemma SpliceBegins(t: Template, values: map<nat, Value>)
    requires ValidTemplate(t)
    ensures Spliced(t, values, 0, 0, t.code)
  {
    assert Interleaved(t, values, 0) == [];
  }

  lemma SpliceEnds(t: Template, values: map<nat, Value>, shift: int, contract: bytes)
    requires ValidTemplate(t) && Spliced(t, values, |t.positions|, shift, contract)
    ensures contract == Interleaved(t, values, |t.positions|) + Chunk(t, |t.positions|)
  {
    hide Interleaved;
  }

  /**
   * The client's populate: splice each value over the zero byte of its label, in place, correcting the
   * later positions by a running shift. The outcome is the chunks interleaved with the fields.
   */
  method Populate(t: Template, values: map<nat, Value>) returns (contract: bytes)
    requires ValidTemplate(t)
    ensures contract == Interleaved(t, values, |t.positions|) + Chunk(t, |t.positions|)
  {
    hide Spliced, Interleaved, Chunk, Place, Field;
    contract := t.code;
    var shift: int := 0;
    SpliceBegins(t, values);
    for k := 0 to |t.positions|
      invariant Spliced(t, values, k, shift, contract)
    {
      SpliceNext(t, values, k, shift, contract);
      if k in values {
        var pos, field := t.positions[k] + shift, Field(values[k]);
        shift := shift + |field| - 1;
        contract := Place(contract, pos, field);
      }
    }
    SpliceEnds(t, values, shift, contract);
  }

  // ---- get_sig_address ----

  /** One deployed application and the four-label template (index, emitter, app id, app address) it uses. */
  datatype App = App(tmpl: Template, id: nat, address: bytes)

  ghost predicate ValidApp(a: App)
  {
    ValidTemplate(a.tmpl) && |a.tmpl.positions| == 4
  }

  const PROGRAM: bytes := [80, 114, 111, 103, 114, 97, 109]  // "Program"

  /** The bytes hashed by get_sig_address. */
  function Preimage(a: App, index: nat, emitter: bytes): bytes
    requires ValidApp(a)
  {
    PROGRAM + (Chunk(a.tmpl, 0) + (EncodeUvarint(index, [])
    + (Chunk(a.tmpl, 1) + (EncodeUvarint(|emitter|, []) + (emitter
    + (Chunk(a.tmpl, 2) + (EncodeUvarint(a.id, [])
    + (Chunk(a.tmpl, 3) + (EncodeUvarint(|a.address|, []) + (a.address
    + Chunk(a.tmpl, 4)))))))))))
  }

  function SigAddress(c: Crypto, a: App, index: nat, emitter: bytes): bytes
    requires ValidApp(a)
  {
    c.sha512_256(Preimage(a, index, emitter))
  }

  /** The hashed bytes determine the slot, and the application as well when the template is shared. */
  lemma PreimageInjective(a: App, i: nat, e: bytes, b: App, j: nat, f: bytes)
    requires ValidApp(a) && ValidApp(b) && a.tmpl == b.tmpl
    requires Preimage(a, i, e) == Preimage(b, j, f)
    ensures i == j && e == f && a == b
  {
    var t := a.tmpl;
    var a5, b5 := a.address + Chunk(t, 4), b.address + Chunk(t, 4);
    var a4, b4 := EncodeUvarint(|a.address|, []) + a5, EncodeUvarint(|b.address|, []) + b5;
    var a3, b3 := EncodeUvarint(a.id, []) + (Chunk(t, 3) + a4), EncodeUvarint(b.id, []) + (Chunk(t, 3) + b4);
    var a2, b2 := EncodeUvarint(|e|, []) + (e + (Chunk(t, 2) + a3)), EncodeUvarint(|f|, []) + (f + (Chunk(t, 2) + b3));
    var a1, b1 := EncodeUvarint(i, []) + (Chunk(t, 1) + a2), EncodeUvarint(j, []) + (Chunk(t, 1) + b2);
    CancelLeft(PROGRAM, Chunk(t, 0) + a1, Chunk(t, 0) + b1);
    CancelLeft(Chunk(t, 0), a1, b1);
    UvarintPrefixFree(i, Chunk(t, 1) + a2, j, Chunk(t, 1) + b2);
    CancelLeft(Chunk(t, 1), a2, b2);
    LengthPrefixed(e, Chunk(t, 2) + a3, f, Chunk(t, 2) + b3);
    CancelLeft(Chunk(t, 2), a3, b3);
    UvarintPrefixFree(a.id, Chunk(t, 3) + a4, b.id, Chunk(t, 3) + b4);
    CancelLeft(Chunk(t, 3), a4, b4);
    LengthPrefixed(a.address, Chunk(t, 4), b.address, Chunk(t, 4));
  }

  /** Distinct slots have distinct addresses. */
  lemma SlotsDoNotAlias(c: Crypto, a: App, i: nat, e: bytes, j: nat, f: bytes)
    requires ValidApp(a) && CollisionFree(c)
    ensures SigAddress(c, a, i, e) == SigAddress(c, a, j, f) <==> i == j && e == f
  {
    if SigAddress(c, a, i, e) == SigAddress(c, a, j, f) {
      PreimageInjective(a, i, e, a, j, f);
    }
  }

  /** The values the client passes to populate when it opts a storage account in. */
  function OptinValues(a: App, index: nat, emitter: bytes): map<nat, Value>
  {
    map[0 := IntValue(index), 1 := BytesValue(emitter), 2 := IntValue(a.id), 3 := BytesValue(a.address)]
  }

  /** Off chain and on chain, the same address: hashing the populated program is get_sig_address. */
  method ClientAddress(c: Crypto, a: App, index: nat, emitter: bytes) returns (addr: bytes)
    requires ValidApp(a)
    ensures addr == SigAddress(c, a, index, emitter)
  {
    var program := Populate(a.tmpl, OptinValues(a, index, emitter));
    PopulatedIsPreimage(a, index, emitter);
    addr := c.sha512_256(PROGRAM + program);
  }

  lemma PopulatedIsPreimage(a: App, index: nat, emitter: bytes)
    requires ValidApp(a)
    ensures PROGRAM + (Interleaved(a.tmpl, OptinValues(a, index, emitter), 4) + Chunk(a.tmpl, 4))
            == Preimage(a, index, emitter)
  {
    var t, v := a.tmpl, OptinValues(a, index, emitter);
    UvarintIsLeb128(index, []);
    UvarintIsLeb128(|emitter|, []);
    UvarintIsLeb128(a.id, []);
    UvarintIsLeb128(|a.address|, []);
    var s0, s1, s2, s3 := Slot(t, v, 0), Slot(t, v, 1), Slot(t, v, 2), Slot(t, v, 3);
    assert Interleaved(t, v, 0) == [];
    assert Interleaved(t, v, 1) == Chunk(t, 0) + s0;
    assert Interleaved(t, v, 2) == Chunk(t, 0) + s0 + Chunk(t, 1) + s1;
    assert Interleaved(t, v, 3) == Chunk(t, 0) + s0 + Chunk(t, 1) + s1 + Chunk(t, 2) + s2;
    assert Interleaved(t, v, 4) == Chunk(t, 0) + s0 + Chunk(t, 1) + s1 + Chunk(t, 2) + s2 + Chunk(t, 3) + s3;
    assert EncodeUvarint(index, []) == s0 && EncodeUvarint(a.id, []) == s2;
    assert EncodeUvarint(|emitter|, []) + emitter == s1;
    assert EncodeUvarint(|a.address|, []) + a.address == s3;
    Regroup(Chunk(t, 0), s0, Chunk(t, 1), EncodeUvarint(|emitter|, []), emitter, Chunk(t, 2), s2,
            Chunk(t, 3), EncodeUvarint(|a.address|, []), a.address, Chunk(t, 4));
  }

  lemma Regroup(c0: bytes, s0: bytes, c1: bytes, l1: bytes, e: bytes, c2: bytes, s2: bytes,
                c3: bytes, l3: bytes, d: bytes, c4: bytes)
    ensures c0 + s0 + c1 + (l1 + e) + c2 + s2 + c3 + (l3 + d) + c4
            == c0 + (s0 + (c1 + (l1 + (e + (c2 + (s2 + (c3 + (l3 + (d + c4)))))))))
  {
  }

  /** The template shipped with the contracts. */
  const SIG_TEMPLATE: Template := Template(
    [6, 32, 1, 1, 129, 0, 72, 128, 0, 72, 49, 16, 129, 6, 18, 68, 49, 25, 34, 18, 68, 49, 24, 129, 0, 18,
     68, 49, 32, 128, 0, 18, 68, 49, 1, 129, 0, 18, 68, 49, 9, 50, 3, 18, 68, 49, 21, 50, 3, 18, 68, 34],
    [5, 8, 24, 30])

  lemma ShippedTemplateIsValid(id: nat, address: bytes)
    ensures ValidApp(App(SIG_TEMPLATE, id, address))
  {
  }
}
