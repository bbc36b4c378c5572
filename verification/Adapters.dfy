/** The three chain adapters: how each decodes what its node answers about one commitment. */
module Adapters {
  import opened Wrappers
  import opened Bytes
  import opened Types
  import opened Paths
  import opened World

  type Store = map<Key, entry>

  const DISCRIMINATOR_LEN := 8
  const COMMITMENT_LEN := 32

  /** EVM: the router's mapping answers zero for a path it does not hold. */
  function EvmDecode(commitment: word): Option<word> {
    if commitment == ZERO then None else Some(commitment)
  }

  /** Cosmos: packet and ack queries answer bytes, the receipt query a flag. */
  datatype CosmosReply = Commitment(data: bytes) | Receipt(received: bool)

  function CosmosFetch(reply: CosmosReply): Result<Option<bytes>, AdapterError> {
    match reply
    case Commitment(data) => Ok(if data == [] then None else Some(data))
    case Receipt(received) => if received then Err(CommitmentError) else Ok(None)
  }

  function CosmosDecode(reply: CosmosReply): Result<Option<word>, AdapterError> {
    match CosmosFetch(reply)
    case Err(e) => Err(e)
    case Ok(None) => Ok(None)
    case Ok(Some(data)) => if |data| == COMMITMENT_LEN then Ok(Some(data)) else Err(CommitmentError)
  }

  /** Solana: the data of the commitment's account, after an 8-byte discriminator. */
  function SolanaDecode(account: Option<bytes>): Result<Option<word>, AdapterError> {
    match account
    case None => Ok(None)
    case Some(data) =>
      if |data| < DISCRIMINATOR_LEN + COMMITMENT_LEN then Err(RetrievalError)
      else
        var commitment := data[DISCRIMINATOR_LEN..];
        if |commitment| == COMMITMENT_LEN then Ok(Some(commitment)) else Err(CommitmentError)
  }

  /** Only accounts of exactly 40 bytes are accepted, though the length check speaks of at least 40. */
  lemma SolanaAcceptsExactly40(data: bytes)
    ensures SolanaDecode(Some(data)).Ok? <==> |data| == 40
    ensures |data| == 40 ==> SolanaDecode(Some(data)) == Ok(Some(data[8..]))
    ensures SolanaDecode(Some(data)) == Err(RetrievalError) <==> |data| < 40
    ensures SolanaDecode(Some(data)) == Err(CommitmentError) <==> |data| > 40
  {
  }

  /** Cosmos: no bytes is absence, 32 are a commitment, any other number is an error, as is a receipt that is there. */
  lemma CosmosAcceptsExactly32(data: bytes, received: bool)
    ensures CosmosDecode(Commitment(data)) ==
            if data == [] then Ok(None) else if |data| == 32 then Ok(Some(data)) else Err(CommitmentError)
    ensures CosmosDecode(Receipt(received)) == if received then Err(CommitmentError) else Ok(None)
  {
  }

  // What an honest node answers about a store.

  /** The router keys its mapping by the hash of the path, not by the path. */
  ghost function EvmStorage(c: Crypto, store: Store, hash: word): word {
    if exists k :: k in store && c.keccak256(Path(k)) == hash then
      var k :| k in store && c.keccak256(Path(k)) == hash; store[k]
    else ZERO
  }

  function CosmosQuery(store: Store, k: Key): CosmosReply {
    if k.kind == ReceiptCommitment then Receipt(k in store)
    else Commitment(if k in store then store[k] else [])
  }

  function SolanaAccount(discriminator: bytes, store: Store, k: Key): Option<bytes> {
    if k in store then Some(discriminator + store[k]) else None
  }

  /** An honest node's answer, run through the adapter of its chain. */
  ghost function GetCommitment(c: Crypto, chain: Chain, discriminator: bytes, store: Store,
                               client: bytes, sequence: u64, path: bytes, kind: CommitmentType)
    : Result<Option<word>, AdapterError>
  {
    var k := Key(kind, client, sequence);
    match chain
    case Evm(_) => Ok(EvmDecode(EvmStorage(c, store, c.keccak256(path))))
    case Cosmos => CosmosDecode(CosmosQuery(store, k))
    case Solana => SolanaDecode(SolanaAccount(discriminator, store, k))
  }

  function Lookup(store: Store, k: Key): Option<word> {
    if k in store then Some(store[k]) else None
  }

  /** Some other key in the store has a different path with the same Keccak hash. */
  ghost predicate PathCollision(c: Crypto, store: Store, k: Key) {
    exists l :: l in store && Collide(c.keccak256, Path(k), Path(l))
  }

  /** Looking up the hashed path finds the tuple's entry, or exhibits a Keccak collision. */
  lemma PathKeyedLookup(c: Crypto, store: Store, k: Key)
    ensures EvmDecode(EvmStorage(c, store, c.keccak256(Path(k)))) == Lookup(store, k) || PathCollision(c, store, k)
    ensures k !in store && PathCollision(c, store, k)
            ==> EvmDecode(EvmStorage(c, store, c.keccak256(Path(k)))) != Lookup(store, k)
  {
    var hash := c.keccak256(Path(k));
    if l :| l in store && c.keccak256(Path(l)) == hash && l != k {
      HashedPathInjective(c, k, l);
    }
    if PathCollision(c, store, k) {
      var l :| l in store && Collide(c.keccak256, Path(k), Path(l));
      assert c.keccak256(Path(l)) == hash;
    }
  }

  /** All three adapters read the entry itself; only a present Cosmos receipt is an error instead. */
  lemma AdapterReads(c: Crypto, chain: Chain, discriminator: bytes, store: Store, k: Key)
    requires |discriminator| == DISCRIMINATOR_LEN
    requires chain.Evm? ==> !PathCollision(c, store, k)
    ensures GetCommitment(c, chain, discriminator, store, k.client, k.sequence, Path(k), k.kind) ==
            if chain.Cosmos? && k.kind == ReceiptCommitment && k in store then Err(CommitmentError)
            else Ok(Lookup(store, k))
  {
    match chain
    case Evm(_) => PathKeyedLookup(c, store, k);
    case Cosmos =>
    case Solana =>
      if k in store {
        assert (discriminator + store[k])[DISCRIMINATOR_LEN..] == store[k];
      }
  }

  /** EVM and Solana agree on a stored word exactly when it is not zero, which only EVM takes for absence. */
  lemma ZeroIsAbsentOnlyOnEvm(discriminator: bytes, stored: word)
    requires |discriminator| == DISCRIMINATOR_LEN
    ensures Ok(EvmDecode(stored)) == SolanaDecode(Some(discriminator + stored)) <==> stored != ZERO
  {
    assert (discriminator + stored)[DISCRIMINATOR_LEN..] == stored;
  }
}
