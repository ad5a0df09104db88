/**
 Storage identities of an OSCORE security context (identity.c) and the nonces the context
 protects messages with (section 5.2 of RFC 8613). SHA-256 and HKDF are parameters: any
 functions of their inputs.
 */
module Identity {
  import opened Bytes

  type Digest = s: seq<Byte> | |s| == 32 witness seq(32, _ => 0)
  type Key = s: seq<Byte> | |s| == 16 witness seq(16, _ => 0)
  type Iv = s: seq<Byte> | |s| == 13 witness seq(13, _ => 0)

  /** The two primitives: a hash, and a key derivation over (secret, salt, info). */
  datatype Crypto = Crypto(
    sha: seq<Byte> -> Digest,
    key: (seq<Byte>, seq<Byte>, seq<Byte>) -> Key,
    iv: (seq<Byte>, seq<Byte>, seq<Byte>) -> Iv)

  datatype Material = Material(
    secret: seq<Byte>, salt: seq<Byte>, sender: seq<Byte>, recipient: seq<Byte>,
    context: Option<seq<Byte>>)

  datatype Identity = Identity(context: Digest, senderSpace: Digest, recipientSpace: Digest)

  predicate ValidMaterial(m: Material) {
    && 16 <= |m.secret| <= 32
    && |m.salt| <= 32
    && |m.sender| <= 7
    && |m.recipient| <= 7
    && (m.context.Some? ==> |m.context.value| <= 255)
    && m.sender != m.recipient
  }

  // ----- CBOR fragments

  /** A CBOR byte string header and its bytes; lengths stay below 256. */
  function PutBytes(bytes: seq<Byte>): seq<Byte>
    requires |bytes| < 256
  {
    Header(|bytes|) + bytes
  }

  function Header(length: nat): seq<Byte>
    requires length < 256
  {
    if length < 24 then [0x40 + length] else [0x58, length]
  }

  /** An absent ID Context is CBOR null, which no byte string encodes. */
  function PutContext(context: Option<seq<Byte>>): seq<Byte>
    requires context.Some? ==> |context.value| < 256
  {
    if context.Some? then PutBytes(context.value) else [0xf6]
  }

  /** `put_bytes`: writes header and contents in place and returns the next free index. */
  method WriteBytes(output: array<Byte>, start: nat, bytes: seq<Byte>) returns (next: nat)
    requires |bytes| < 256
    requires start + 2 + |bytes| <= output.Length
    modifies output
    ensures next == start + |PutBytes(bytes)| <= output.Length
    ensures output[..next] == old(output[..start]) + PutBytes(bytes)
    ensures output[next..] == old(output[next..])
  {
    next := WriteHeader(output, start, |bytes|);
    ghost var head := output[..next];
    for i := 0 to |bytes|
      invariant output[..next] == head
      invariant output[next..next + i] == bytes[..i]
      invariant output[next + i..] == old(output[next + i..])
    {
      output[next + i] := bytes[i];
    }
    Appended(output[..], next, bytes, old(output[..start]), Header(|bytes|));
    next := next + |bytes|;
  }

  /** `put_bytes` before it copies. */
  method WriteHeader(output: array<Byte>, start: nat, length: nat) returns (next: nat)
    requires length < 256 && start + 2 <= output.Length
    modifies output
    ensures next == start + |Header(length)|
    ensures output[..next] == old(output[..start]) + Header(length) && output[next..] == old(output[next..])
  {
    if length < 24 {
      output[start] := 0x40 + length;
      next := start + 1;
    } else {
      output[start] := 0x58;
      output[start + 1] := length;
      next := start + 2;
    }
  }

  lemma Appended(output: seq<Byte>, next: nat, bytes: seq<Byte>, before: seq<Byte>, header: seq<Byte>)
    requires next + |bytes| <= |output| && output[..next] == before + header
    requires output[next..next + |bytes|] == bytes[..|bytes|]
    ensures output[..next + |bytes|] == before + (header + bytes)
  {
    assert output[..next + |bytes|] == output[..next] + output[next..next + |bytes|];
    assert bytes[..|bytes|] == bytes;
  }

  /** Encoded byte strings can be told apart and split off whatever follows them. */
  lemma PutBytesIsPrefixFree(a: seq<Byte>, b: seq<Byte>, x: seq<Byte>, y: seq<Byte>)
    requires |a| < 256 && |b| < 256
    requires PutBytes(a) + x == PutBytes(b) + y
    ensures a == b && x == y
  {
    var p, q := PutBytes(a) + x, PutBytes(b) + y;
    assert p[0] == q[0];
    assert |a| >= 24 ==> p[1] == |a|;
    assert |b| >= 24 ==> q[1] == |b|;
    var head := if |a| < 24 then 1 else 2;
    assert |a| == |b|;
    assert p[head..head + |a|] == a && q[head..head + |a|] == b;
    assert p[head + |a|..] == x && q[head + |a|..] == y;
  }

  lemma PutContextIsPrefixFree(a: Option<seq<Byte>>, b: Option<seq<Byte>>, x: seq<Byte>, y: seq<Byte>)
    requires a.Some? ==> |a.value| < 256
    requires b.Some? ==> |b.value| < 256
    requires PutContext(a) + x == PutContext(b) + y
    ensures a == b && x == y
  {
    var p, q := PutContext(a) + x, PutContext(b) + y;
    assert p[0] == q[0];
    if a.Some? && b.Some? {
      PutBytesIsPrefixFree(a.value, b.value, x, y);
    } else if a.None? && b.None? {
      assert p[1..] == x && q[1..] == y;
    }
  }

  // ----- the persisted identity

  const CONTEXT_DOMAIN: seq<Byte> :=
    // "wotex.oscore.context@1"
    [119, 111, 116, 101, 120, 46, 111, 115, 99, 111, 114, 101, 46, 99, 111, 110, 116, 101, 120, 116, 64, 49]

  const SPACE_DOMAIN: seq<Byte> :=
    // "wotex.oscore.space@1"
    [119, 111, 116, 101, 120, 46, 111, 115, 99, 111, 114, 101, 46, 115, 112, 97, 99, 101, 64, 49]

  /** The bytes whose hash names the whole context. */
  function ContextInput(m: Material): seq<Byte>
    requires ValidMaterial(m)
  {
    CONTEXT_DOMAIN + [0x87] +
    (PutBytes(m.secret) + (PutBytes(m.salt) + (PutBytes(m.sender) + (PutBytes(m.recipient) +
    (PutContext(m.context) + [0x0a, 0x29])))))
  }

  lemma EncodedLengths(m: Material)
    requires ValidMaterial(m)
    ensures |PutBytes(m.secret)| <= 34 && |PutBytes(m.salt)| <= 34
    ensures |PutBytes(m.sender)| <= 8 && |PutBytes(m.recipient)| <= 8
    ensures |PutContext(m.context)| <= 257
  {
  }

  /** The context input determines the material, and fits the 512-byte buffer it is built in. */
  lemma ContextInputIsInjective(m: Material, n: Material)
    requires ValidMaterial(m) && ValidMaterial(n)
    ensures |ContextInput(m)| <= 512
    ensures ContextInput(m) == ContextInput(n) ==> m == n
  {
    hide PutBytes, PutContext;
    assert |ContextInput(m)| <= 512 by { EncodedLengths(m); }
    if ContextInput(m) == ContextInput(n) {
      var end: seq<Byte> := [0x0a, 0x29];
      var m4, n4 := PutContext(m.context) + end, PutContext(n.context) + end;
      var m3, n3 := PutBytes(m.recipient) + m4, PutBytes(n.recipient) + n4;
      var m2, n2 := PutBytes(m.sender) + m3, PutBytes(n.sender) + n3;
      var m1, n1 := PutBytes(m.salt) + m2, PutBytes(n.salt) + n2;
      var head := CONTEXT_DOMAIN + [0x87];
      assert PutBytes(m.secret) + m1 == ContextInput(m)[|head|..] == ContextInput(n)[|head|..];
      PutBytesIsPrefixFree(m.secret, n.secret, m1, n1);
      PutBytesIsPrefixFree(m.salt, n.salt, m2, n2);
      PutBytesIsPrefixFree(m.sender, n.sender, m3, n3);
      PutBytesIsPrefixFree(m.recipient, n.recipient, m4, n4);
      PutContextIsPrefixFree(m.context, n.context, end, end);
    }
  }

  /** HKDF info for a key (section 3.2.1 of RFC 8613): [id, id_context, alg, "Key", 16]. */
  function KeyInfo(m: Material, id: seq<Byte>): seq<Byte>
    requires ValidMaterial(m) && |id| <= 7
  {
    [0x85] + PutBytes(id) + PutContext(m.context) + [0x0a, 0x63, 75, 101, 121, 16]
  }

  /** HKDF info for the Common IV: [h'', id_context, alg, "IV", 13]. */
  function IvInfo(m: Material): seq<Byte>
    requires ValidMaterial(m)
  {
    [0x85] + PutBytes([]) + PutContext(m.context) + [0x0a, 0x62, 73, 86, 13]
  }

  function SenderKey(c: Crypto, m: Material): Key
    requires ValidMaterial(m)
  {
    c.key(m.secret, m.salt, KeyInfo(m, m.sender))
  }

  function RecipientKey(c: Crypto, m: Material): Key
    requires ValidMaterial(m)
  {
    c.key(m.secret, m.salt, KeyInfo(m, m.recipient))
  }

  function CommonIv(c: Crypto, m: Material): Iv
    requires ValidMaterial(m)
  {
    c.iv(m.secret, m.salt, IvInfo(m))
  }

  /** One byte of the eight that name a nonce namespace. */
  function PrefixByte(iv: Iv, id: seq<Byte>, i: nat): Byte
    requires |id| <= 7 && i < 8
  {
    if i == 0 then Xor(iv[0], |id|)
    else if i >= 8 - |id| then Xor(iv[i], id[i - (8 - |id|)])
    else iv[i]
  }

  /** The first eight nonce bytes: Common IV masked with the ID's length and right-aligned bytes. */
  function NoncePrefix(iv: Iv, id: seq<Byte>): (prefix: seq<Byte>)
    requires |id| <= 7
    ensures |prefix| == 8
  {
    seq(8, i requires 0 <= i < 8 => PrefixByte(iv, id, i))
  }

  /** The loop of `space` that masks the prefix in place. */
  method MaskPrefix(nonce: array<Byte>, iv: Iv, id: seq<Byte>)
    requires nonce.Length == 8 && |id| <= 7
    modifies nonce
    ensures nonce[..] == NoncePrefix(iv, id)
  {
    for i := 0 to 8
      invariant nonce[..i] == iv[..i]
    {
      nonce[i] := iv[i];
    }
    nonce[0] := Xor(nonce[0], |id|);
    for index := 0 to |id|
      invariant forall i :: 0 <= i < 8 - |id| + index ==> nonce[i] == PrefixByte(iv, id, i)
      invariant forall i :: 8 - |id| + index <= i < 8 ==> nonce[i] == iv[i]
    {
      nonce[8 - |id| + index] := Xor(nonce[8 - |id| + index], id[index]);
    }
  }

  /** Under one Common IV the prefix separates IDs. */
  lemma NoncePrefixSeparatesIds(iv: Iv, a: seq<Byte>, b: seq<Byte>)
    requires |a| <= 7 && |b| <= 7
    requires NoncePrefix(iv, a) == NoncePrefix(iv, b)
    ensures a == b
  {
    var p, q := NoncePrefix(iv, a), NoncePrefix(iv, b);
    assert p[0] == q[0];
    XorCancels(iv[0], |a|, |b|);
    forall i | 0 <= i < |a| ensures a[i] == b[i] {
      var k := 8 - |a| + i;
      assert p[k] == q[k];
      XorCancels(iv[k], a[i], b[i]);
    }
  }

  function SpaceInput(key: Key, iv: Iv, id: seq<Byte>): seq<Byte>
    requires |id| <= 7
  {
    SPACE_DOMAIN + key + NoncePrefix(iv, id)
  }

  function IdentityOf(c: Crypto, m: Material): Identity
    requires ValidMaterial(m)
  {
    Identity(
      c.sha(ContextInput(m)),
      c.sha(SpaceInput(SenderKey(c, m), CommonIv(c, m), m.sender)),
      c.sha(SpaceInput(RecipientKey(c, m), CommonIv(c, m), m.recipient)))
  }

  predicate Overlaps(left: Identity, right: Identity) {
    || left.context == right.context
    || left.senderSpace == right.senderSpace
    || left.senderSpace == right.recipientSpace
    || left.recipientSpace == right.senderSpace
    || left.recipientSpace == right.recipientSpace
  }

  // ----- nonces

  const SEQUENCE_LIMIT: nat := 0x100_0000_0000

  /** The 13-byte AEAD nonce of section 5.2 of RFC 8613 for one Partial IV. */
  function Nonce(iv: Iv, id: seq<Byte>, piv: nat): (nonce: seq<Byte>)
    requires |id| <= 7
    ensures |nonce| == 13
  {
    NoncePrefix(iv, id) +
    seq(5, i requires 0 <= i < 5 => Xor(iv[8 + i], ToBytes(piv, 5)[i]))
  }

  /** One namespace never yields one nonce for two Partial IVs. */
  lemma NonceTail(iv: Iv, id: seq<Byte>, piv: nat, i: nat)
    requires |id| <= 7 && i < 5
    ensures Nonce(iv, id, piv)[8 + i] == Xor(iv[8 + i], ToBytes(piv, 5)[i])
  {
    hide Xor, ToBytes;
  }

  lemma NonceSeparatesPartialIvs(iv: Iv, id: seq<Byte>, p: nat, q: nat)
    requires |id| <= 7
    requires p < SEQUENCE_LIMIT && q < SEQUENCE_LIMIT
    requires Nonce(iv, id, p) == Nonce(iv, id, q)
    ensures p == q
  {
    hide Nonce, Xor, ToBytes, Pow256, BigEndian;
    forall i | 0 <= i < 5 ensures ToBytes(p, 5)[i] == ToBytes(q, 5)[i] {
      NonceTail(iv, id, p, i);
      NonceTail(iv, id, q, i);
      XorCancels(iv[8 + i], ToBytes(p, 5)[i], ToBytes(q, 5)[i]);
    }
    assert ToBytes(p, 5) == ToBytes(q, 5);
    Pow256Values();
    EncodedIntegerReadsBack(p, 5);
    EncodedIntegerReadsBack(q, 5);
  }

  /** The directional half of a context: the key one side sends under and that side's ID. */
  datatype Direction = Sending | Receiving

  function KeyOf(c: Crypto, m: Material, d: Direction): Key
    requires ValidMaterial(m)
  {
    if d.Sending? then SenderKey(c, m) else RecipientKey(c, m)
  }

  function IdOf(m: Material, d: Direction): seq<Byte> {
    if d.Sending? then m.sender else m.recipient
  }

  /** Two contexts that could ever protect with the same key and nonce, in either role, overlap. */
  lemma SharedNonceMeansOverlap(c: Crypto, m: Material, d: Direction, p: nat,
                                n: Material, e: Direction, q: nat)
    requires ValidMaterial(m) && ValidMaterial(n)
    requires KeyOf(c, m, d) == KeyOf(c, n, e)
    requires Nonce(CommonIv(c, m), IdOf(m, d), p) == Nonce(CommonIv(c, n), IdOf(n, e), q)
    ensures Overlaps(IdentityOf(c, m), IdentityOf(c, n))
  {
    var x, y := Nonce(CommonIv(c, m), IdOf(m, d), p), Nonce(CommonIv(c, n), IdOf(n, e), q);
    assert x[..8] == NoncePrefix(CommonIv(c, m), IdOf(m, d));
    assert y[..8] == NoncePrefix(CommonIv(c, n), IdOf(n, e));
  }

  /** The namespace of one direction, before hashing. */
  function Space(c: Crypto, m: Material, d: Direction): seq<Byte>
    requires ValidMaterial(m)
  {
    SpaceInput(KeyOf(c, m, d), CommonIv(c, m), IdOf(m, d))
  }

  predicate SharesSpace(c: Crypto, m: Material, n: Material)
    requires ValidMaterial(m) && ValidMaterial(n)
  {
    || Space(c, m, Sending) == Space(c, n, Sending)
    || Space(c, m, Sending) == Space(c, n, Receiving)
    || Space(c, m, Receiving) == Space(c, n, Sending)
    || Space(c, m, Receiving) == Space(c, n, Receiving)
  }

  /** The hash tells apart the inputs these two identities hash. */
  predicate NoCollision(c: Crypto, m: Material, n: Material)
    requires ValidMaterial(m) && ValidMaterial(n)
  {
    && (c.sha(ContextInput(m)) == c.sha(ContextInput(n)) ==> ContextInput(m) == ContextInput(n))
    && (forall d, e :: c.sha(Space(c, m, d)) == c.sha(Space(c, n, e)) ==> Space(c, m, d) == Space(c, n, e))
  }

  /**
   Admission is exact: identities overlap when, and absent a hash collision only when, the
   materials are the same or some direction of one shares its namespace with one of the other.
   */
  lemma OverlapIsExact(c: Crypto, m: Material, n: Material)
    requires ValidMaterial(m) && ValidMaterial(n)
    ensures m == n || SharesSpace(c, m, n) ==> Overlaps(IdentityOf(c, m), IdentityOf(c, n))
    ensures NoCollision(c, m, n) && Overlaps(IdentityOf(c, m), IdentityOf(c, n))
            ==> m == n || SharesSpace(c, m, n)
  {
    ContextInputIsInjective(m, n);
  }
}
