/** The decisions of the attestation service about one packet and about one height. */
module Attestor {
  import opened Wrappers
  import opened Bytes
  import opened Types
  import opened Paths
  import opened World
  import opened Adapters

  type Read = Result<Option<word>, AdapterError>

  type Verdict = Result<PacketCompact, AttestorError>

  function HandlePacketCommitment(c: Crypto, p: Packet, height: u64, read: Read): Verdict {
    var expected := c.packetCommitment(p);
    match read
    case Err(e) => Err(AdapterFailure(e))
    case Ok(None) => Err(CommitmentNotFound(p.sourceClient, p.sequence, height))
    case Ok(Some(actual)) =>
      if expected == actual then Ok(PacketCompact(c.keccak256(Path(KeyOf(PacketCommitment, p))), actual))
      else Err(InvalidCommitment(p.sourceClient, p.sequence, Mismatch(expected, actual)))
  }

  function HandleAckCommitment(c: Crypto, p: Packet, height: u64, read: Read): Verdict {
    match read
    case Err(e) => Err(AdapterFailure(e))
    case Ok(None) => Err(CommitmentNotFound(p.destClient, p.sequence, height))
    case Ok(Some(actual)) => Ok(PacketCompact(c.keccak256(Path(KeyOf(AckCommitment, p))), actual))
  }

  function HandleReceiptCommitment(c: Crypto, p: Packet, read: Read): Verdict {
    match read
    case Err(e) => Err(AdapterFailure(e))
    case Ok(None) => Ok(PacketCompact(c.keccak256(Path(KeyOf(ReceiptCommitment, p))), ZERO))
    case Ok(Some(found)) => Err(InvalidCommitment(p.destClient, p.sequence, UnexpectedReceipt(found)))
  }

  /** A verdict the service can reach: every error is an adapter's or a counted failure. */
  predicate Judged(v: Verdict) {
    v.Ok? || v.error.AdapterFailure? || FailureOf(v.error).Some?
  }

  function Judge(c: Crypto, kind: CommitmentType, p: Packet, height: u64, read: Read): (v: Verdict)
    ensures Judged(v)
  {
    match kind
    case PacketCommitment => HandlePacketCommitment(c, p, height, read)
    case AckCommitment => HandleAckCommitment(c, p, height, read)
    case ReceiptCommitment => HandleReceiptCommitment(c, p, read)
  }

  /** One packet's attestation against a store, through the adapter of its chain. */
  ghost function Attest(c: Crypto, chain: Chain, discriminator: bytes, store: Store,
                        kind: CommitmentType, p: Packet, height: u64): (v: Verdict)
    ensures Judged(v)
  {
    var k := KeyOf(kind, p);
    Judge(c, kind, p, height, GetCommitment(c, chain, discriminator, store, k.client, k.sequence, Path(k), kind))
  }

  /** What an attested entry claims about a store. */
  ghost predicate Holds(c: Crypto, store: Store, kind: CommitmentType, p: Packet, item: PacketCompact) {
    var k := KeyOf(kind, p);
    && item.path == c.keccak256(Path(k))
    && match kind
       case PacketCommitment => k in store && store[k] == c.packetCommitment(p) == item.commitment
       case AckCommitment => k in store && store[k] == item.commitment
       case ReceiptCommitment => k !in store && item.commitment == ZERO
  }

  /** A packet is attested exactly when there is something true to attest, and then that is what is attested. */
  lemma AttestExact(c: Crypto, chain: Chain, discriminator: bytes, store: Store,
                    kind: CommitmentType, p: Packet, height: u64)
    requires |discriminator| == DISCRIMINATOR_LEN
    requires chain.Evm? ==> !PathCollision(c, store, KeyOf(kind, p))
    ensures var v := Attest(c, chain, discriminator, store, kind, p, height);
            && (v.Ok? <==> exists item :: Holds(c, store, kind, p, item))
            && (forall item :: v == Ok(item) <==> Holds(c, store, kind, p, item))
  {
    var k := KeyOf(kind, p);
    var v := Attest(c, chain, discriminator, store, kind, p, height);
    AdapterReads(c, chain, discriminator, store, k);
    forall item ensures v == Ok(item) <==> Holds(c, store, kind, p, item) {
    }
    if v.Ok? {
      assert Holds(c, store, kind, p, v.value);
    }
  }

  /**
   * Unconditionally: an attested entry is for its packet's path,
   * and holds unless the EVM store has a Keccak collision with that path.
   */
  lemma AttestSound(c: Crypto, chain: Chain, discriminator: bytes, store: Store,
                    kind: CommitmentType, p: Packet, height: u64)
    requires |discriminator| == DISCRIMINATOR_LEN
    ensures var v := Attest(c, chain, discriminator, store, kind, p, height);
            v.Ok? ==>
              && v.value.path == c.keccak256(Path(KeyOf(kind, p)))
              && (v.value.commitment == ZERO <==> kind == ReceiptCommitment)
              && (|| Holds(c, store, kind, p, v.value)
                  || (chain.Evm? && kind != ReceiptCommitment && PathCollision(c, store, KeyOf(kind, p))))
  {
    var k := KeyOf(kind, p);
    if chain.Evm? && PathCollision(c, store, k) {
      if kind == ReceiptCommitment && k in store {
        assert c.keccak256(Path(k)) == c.keccak256(Path(k));
      }
    } else {
      AttestExact(c, chain, discriminator, store, kind, p, height);
    }
  }

  /** The same store gives the same entry on all three chains, or an error on all three. */
  lemma AdapterRefinement(c: Crypto, offset: Option<u64>, discriminator: bytes, store: Store,
                          kind: CommitmentType, p: Packet, height: u64)
    requires |discriminator| == DISCRIMINATOR_LEN
    requires !PathCollision(c, store, KeyOf(kind, p))
    ensures var evm := Attest(c, Evm(offset), discriminator, store, kind, p, height);
            var cosmos := Attest(c, Cosmos, discriminator, store, kind, p, height);
            var solana := Attest(c, Solana, discriminator, store, kind, p, height);
            && evm == solana
            && (evm.Ok? <==> cosmos.Ok?)
            && (evm != cosmos <==> kind == ReceiptCommitment && KeyOf(kind, p) in store)
            && (evm != cosmos ==> StatusCode(evm.error) == InvalidArgument && StatusCode(cosmos.error) == Internal)
  {
    AdapterReads(c, Evm(offset), discriminator, store, KeyOf(kind, p));
    AdapterReads(c, Cosmos, discriminator, store, KeyOf(kind, p));
    AdapterReads(c, Solana, discriminator, store, KeyOf(kind, p));
  }

  /** What an adapter reports as an error is passed on as it is. */
  lemma AdapterErrorsPass(c: Crypto, kind: CommitmentType, p: Packet, height: u64, e: AdapterError)
    ensures Judge(c, kind, p, height, Err(e)) == Err(AdapterFailure(e))
  {
  }

  /** The failure of a packet that has nothing true to attest: what was missing, wrong or unexpected, and where. */
  ghost predicate FailsWith(c: Crypto, chain: Chain, store: Store, kind: CommitmentType, p: Packet, height: u64,
                            e: AttestorError)
  {
    var k := KeyOf(kind, p);
    match kind
    case PacketCommitment =>
      if k !in store then e == CommitmentNotFound(p.sourceClient, p.sequence, height)
      else e == InvalidCommitment(p.sourceClient, p.sequence, Mismatch(c.packetCommitment(p), store[k]))
    case AckCommitment => e == CommitmentNotFound(p.destClient, p.sequence, height)
    case ReceiptCommitment =>
      k in store
      && if chain.Cosmos? then e == AdapterFailure(CommitmentError)
         else e == InvalidCommitment(p.destClient, p.sequence, UnexpectedReceipt(store[k]))
  }

  /** The counterpart of `AttestExact` for failures: which error a packet gets. */
  lemma AttestErrors(c: Crypto, chain: Chain, discriminator: bytes, store: Store,
                     kind: CommitmentType, p: Packet, height: u64)
    requires |discriminator| == DISCRIMINATOR_LEN
    requires chain.Evm? ==> !PathCollision(c, store, KeyOf(kind, p))
    ensures var v := Attest(c, chain, discriminator, store, kind, p, height);
            forall e :: v == Err(e) <==>
              FailsWith(c, chain, store, kind, p, height, e) && !exists item :: Holds(c, store, kind, p, item)
  {
    var k := KeyOf(kind, p);
    var v := Attest(c, chain, discriminator, store, kind, p, height);
    AdapterReads(c, chain, discriminator, store, k);
    AttestExact(c, chain, discriminator, store, kind, p, height);
    if v.Err? {
      assert FailsWith(c, chain, store, kind, p, height, v.error);
    }
  }
}
