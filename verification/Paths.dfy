/** Commitment paths of IBC v2 (path-space section of ICS-24) and the keys they stand for. */
module Paths {
  import opened Bytes
  import opened Types

  /** The tuple by which Cosmos and Solana find a commitment. */
  datatype Key = Key(kind: CommitmentType, client: bytes, sequence: u64)

  function KindByte(k: CommitmentType): byte {
    match k
    case PacketCommitment => 1
    case ReceiptCommitment => 2
    case AckCommitment => 3
  }

  /** Client identifier, one kind byte, then the sequence as eight big-endian bytes. */
  function Path(k: Key): bytes {
    k.client + [KindByte(k.kind)] + BigEndian(k.sequence, 8)
  }

  /** A packet is committed under its source client, acknowledged and received under its destination client. */
  function KeyOf(kind: CommitmentType, p: Packet): Key {
    Key(kind, if kind == PacketCommitment then p.sourceClient else p.destClient, p.sequence)
  }

  /** The path-space layout, byte by byte: kinds 1, 2 and 3 are packets, receipts and acknowledgements. */
  lemma PathLayout(k: Key)
    ensures var p, n := Path(k), |k.client|;
            && |p| == n + 9
            && p[..n] == k.client
            && p[n] == (if k.kind.PacketCommitment? then 1 else if k.kind.ReceiptCommitment? then 2 else 3)
            && FromBigEndian(p[n + 1..]) == k.sequence
  {
    assert Path(k)[|k.client| + 1..] == BigEndian(k.sequence, 8);
    U64FitsWidth(k.sequence, 8);
    BigEndianRoundTrip(k.sequence, 8);
  }

  /** No two keys share a path, whatever the client identifiers contain. */
  lemma PathInjective(k: Key, l: Key)
    requires Path(k) == Path(l)
    ensures k == l
  {
    var p, n := Path(k), |k.client|;
    assert |p| == n + 9 == |l.client| + 9;
    assert p[..n] == k.client && p[..n] == l.client;
    assert p[n] == KindByte(k.kind) == KindByte(l.kind);
    assert p[n + 1..] == BigEndian(k.sequence, 8) == BigEndian(l.sequence, 8);
    BigEndianInjective(k.sequence, l.sequence, 8);
  }

  /** The hashed paths of two distinct keys agree only on a Keccak collision. */
  lemma HashedPathInjective(c: Crypto, k: Key, l: Key)
    ensures c.keccak256(Path(k)) == c.keccak256(Path(l)) <==> k == l || Collide(c.keccak256, Path(k), Path(l))
  {
    if Path(k) == Path(l) {
      PathInjective(k, l);
    }
  }
}
