/** What is signed: the tagged input, its digest and the signature over it. */
module Signing {
  import opened Wrappers
  import opened Bytes
  import opened Types
  import opened Abi
  import opened Encodings

  datatype AttestationType = StateTag | PacketTag

  function AsByte(t: AttestationType): byte {
    match t case StateTag => 0x01 case PacketTag => 0x02
  }

  /** Attestation data bound to its type. */
  datatype AttestationPayload = AttestationPayload(attestationType: AttestationType, data: bytes)

  function TaggedInput(c: Crypto, p: AttestationPayload): bytes {
    [AsByte(p.attestationType)] + c.sha256(p.data)
  }

  method TaggedSigningInput(c: Crypto, p: AttestationPayload) returns (tagged: bytes)
    ensures tagged == TaggedInput(c, p) && |tagged| == 33
    ensures tagged[0] == (if p.attestationType.StateTag? then 1 else 2) && tagged[1..] == c.sha256(p.data)
  {
    var innerHash := c.sha256(p.data);
    tagged := [];
    tagged := tagged + [AsByte(p.attestationType)];
    tagged := tagged + innerHash;
  }

  /** Two payloads share a signing input only if they are the same, or their data collide under SHA-256. */
  lemma TaggedInputInjective(c: Crypto, p: AttestationPayload, q: AttestationPayload)
    ensures TaggedInput(c, p) == TaggedInput(c, q) <==>
            p == q || (p.attestationType == q.attestationType && Collide(c.sha256, p.data, q.data))
  {
    var a, b := TaggedInput(c, p), TaggedInput(c, q);
    assert a[0] == AsByte(p.attestationType) && b[0] == AsByte(q.attestationType);
    assert a[1..] == c.sha256(p.data) && b[1..] == c.sha256(q.data);
  }

  /** The statements the service signs. */
  datatype Statement =
    | StateStatement(height: u64, timestamp: u64)
    | PacketStatement(height: u64, items: seq<PacketCompact>)

  function PayloadFor(s: Statement): AttestationPayload {
    match s
    case StateStatement(h, t) => AttestationPayload(StateTag, EncodeState(h, t))
    case PacketStatement(h, items) => AttestationPayload(PacketTag, EncodePackets(h, items))
  }

  /** Distinct statements have distinct payloads, over packet lists of any length. */
  lemma PayloadInjective(s: Statement, r: Statement)
    requires PayloadFor(s) == PayloadFor(r)
    ensures s == r
  {
    match (s, r) {
      case (StateStatement(h, t), StateStatement(g, u)) => EncodeStateInjective(h, t, g, u);
      case (PacketStatement(h, items), PacketStatement(g, others)) => EncodePacketsInjective(h, items, g, others);
      case _ =>
    }
  }

  /** A shared signing input means the same kind, height and content, or a SHA-256 collision. */
  lemma SigningInputInjective(c: Crypto, s: Statement, r: Statement)
    requires TaggedInput(c, PayloadFor(s)) == TaggedInput(c, PayloadFor(r))
    ensures s == r || Collide(c.sha256, PayloadFor(s).data, PayloadFor(r).data)
  {
    TaggedInputInjective(c, PayloadFor(s), PayloadFor(r));
    if PayloadFor(s) == PayloadFor(r) {
      PayloadInjective(s, r);
    }
  }

  /** A key: its address, signing of a digest, and recovery of an address from a digest and a signature. */
  datatype Scheme = Scheme(address: bytes, sign: word -> bytes, recover: (word, bytes) -> Option<bytes>)

  /** 65-byte signatures, from which the address is recovered under the signed digest and no other. */
  ghost predicate Ideal(k: Scheme) {
    && (forall d: word :: |k.sign(d)| == 65)
    && (forall d: word, e: word :: k.recover(e, k.sign(d)) == Some(k.address) <==> d == e)
  }

  /** Signing hashes the message first. */
  function SignMessage(c: Crypto, k: Scheme, message: bytes): bytes {
    k.sign(c.sha256(message))
  }

  function RecoverAddress(c: Crypto, k: Scheme, message: bytes, signature: bytes): Option<bytes> {
    k.recover(c.sha256(message), signature)
  }

  function Signature(c: Crypto, k: Scheme, p: AttestationPayload): bytes {
    SignMessage(c, k, TaggedInput(c, p))
  }

  predicate Verifies(c: Crypto, k: Scheme, p: AttestationPayload, signature: bytes) {
    RecoverAddress(c, k, TaggedInput(c, p), signature) == Some(k.address)
  }

  /** The two SHA-256 applications between a payload and its digest; either can be where two payloads collide. */
  predicate PayloadsCollide(c: Crypto, p: AttestationPayload, q: AttestationPayload) {
    || (p.attestationType == q.attestationType && Collide(c.sha256, p.data, q.data))
    || Collide(c.sha256, TaggedInput(c, p), TaggedInput(c, q))
  }

  /** A payload's signature verifies for that payload alone: never for another type or other data. */
  lemma VerifiesExactly(c: Crypto, k: Scheme, signed: AttestationPayload, p: AttestationPayload)
    requires Ideal(k)
    ensures Verifies(c, k, p, Signature(c, k, signed)) <==> p == signed || PayloadsCollide(c, signed, p)
  {
    TaggedInputInjective(c, signed, p);
  }

  /** Nor for bare data, unless those are the 33 bytes that were signed. */
  lemma RawDataVerifiesExactly(c: Crypto, k: Scheme, signed: AttestationPayload, data: bytes)
    requires Ideal(k)
    ensures RecoverAddress(c, k, data, Signature(c, k, signed)) == Some(k.address) <==>
            data == TaggedInput(c, signed) || Collide(c.sha256, data, TaggedInput(c, signed))
  {
  }

  /** The bytes a statement's signature is over, spelled out: tag 1 for a state, 2 for packets. */
  function InnerBytes(s: Statement): bytes {
    match s
    case StateStatement(h, t) => Uint(h) + Uint(t)
    case PacketStatement(h, items) => Uint(32) + Uint(h) + Uint(64) + Uint(|items|) + Flat(items)
  }

  lemma SignedBytes(c: Crypto, k: Scheme, s: Statement)
    ensures PayloadFor(s).data == InnerBytes(s)
    ensures var tag: byte := if s.StateStatement? then 1 else 2;
            Signature(c, k, PayloadFor(s)) == k.sign(c.sha256([tag] + c.sha256(InnerBytes(s))))
  {
    match s
    case StateStatement(h, t) => EncodeStateShape(h, t);
    case PacketStatement(h, items) =>
      EncodePacketsShape(h, items);
      assert WordAndList(Uint(h), Uint(|items|) + Flat(items)) == InnerBytes(s);
  }

  datatype SignedAttestation = SignedAttestation(
    height: u64, timestamp: Option<u64>, attestedData: bytes, signature: bytes)

  /** `sign_attestation`, given what the signer answered. */
  function SignAttestation(height: u64, timestamp: Option<u64>, p: AttestationPayload, signed: Option<bytes>)
    : Result<SignedAttestation, AttestorError>
  {
    match signed
    case None => Err(SignerFailure)
    case Some(signature) => Ok(SignedAttestation(height, timestamp, p.data, signature))
  }
}
