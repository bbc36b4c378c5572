/**
 * The second case of the Solana audit, as runs: what is attested appears in the store only after the height it is
 * attested at. The attestation is signed although it is not true at that height.
 */
module CaseTwo {
  import opened Bytes
  import opened Types
  import opened Paths
  import opened Ledger
  import opened World
  import opened Adapters
  import opened Attestor
  import opened Service
  import opened Traces

  const GENESIS := World([Block(0, [])], 0)

  function AfterOps(ops: seq<Op>): World { World([Block(0, []), Block(0, ops)], 1) }

  /** The request passes the gate at height 0; a block with `ops` is produced and finalized before the read. */
  function CaseTwoSteps(r: Request, ops: seq<Op>): seq<Step> {
    Steps(r, Produce(Block(0, ops)), Finalize(1), 0)
  }

  lemma MovedByOps(c: Config, ops: seq<Op>)
    ensures Moved(c, GENESIS, Produce(Block(0, ops)), Finalize(1)) == AfterOps(ops)
  {
    assert Possible(c.maxReorg, GENESIS, Produce(Block(0, ops)));
    assert Evolve(c.maxReorg, GENESIS, Produce(Block(0, ops))).blocks == AfterOps(ops).blocks;
  }

  lemma StatesOfTwo(r: Rules, ops: seq<Op>)
    ensures At(r, AfterOps(ops).blocks, 0) == EMPTY
    ensures At(r, AfterOps(ops).blocks, 1) == ApplyAll(r, EMPTY, 0, ops)
  {
    var blocks := AfterOps(ops).blocks;
    assert blocks[..1] == [Block(0, [])];
    assert [Block(0, [])][..0] == [];
    assert After(r, [Block(0, [])]) == EMPTY;
    assert blocks[..2] == blocks;
  }

  /** The run has signed one claim about `p` at height 0, which the store at height 0 does not bear out. */
  ghost predicate SignedUntrue(c: Config, s: Server, kind: CommitmentType, p: Packet) {
    && |s.log| == 1
    && var m := s.log[0].claim;
       && m.PacketClaim? && m.kind == kind && m.height == 0
       && m.packets == [p] && |m.items| == 1 && m.readAt == [1]
       && |s.world.blocks| == 2 && !Holds(c.crypto, StoreAt(c, s.world, 0), kind, p, m.items[0])
  }

  lemma WrittenAfterwards(c: Config, r: Request, kind: CommitmentType, p: Packet, ops: seq<Op>, item: PacketCompact)
    requires c.chain == Solana && |c.discriminator| == DISCRIMINATOR_LEN
    requires Asks(r, kind, p) && r.height == 0 && kind != ReceiptCommitment
    requires Holds(c.crypto, ApplyAll(RulesOf(c), EMPTY, 0, ops).store, kind, p, item)
    ensures SignedUntrue(c, Run(c, GENESIS, CaseTwoSteps(r, ops)), kind, p)
  {
    var w := AfterOps(ops);
    MovedByOps(c, ops);
    StatesOfTwo(RulesOf(c), ops);
    AttestExact(c.crypto, c.chain, c.discriminator, StoreAt(c, w, 1), kind, p, 0);
    OneRead(c, GENESIS, r, kind, p, Produce(Block(0, ops)), Finalize(1), 0, item);
  }

  function Item(c: Config, kind: CommitmentType, p: Packet, commitment: word): PacketCompact {
    PacketCompact(c.crypto.keccak256(Path(KeyOf(kind, p))), commitment)
  }

  lemma ApplyOne(r: Rules, st: State, op: Op)
    ensures ApplyAll(r, st, 0, [op]) == Apply(r, st, 0, op)
  {
    assert [op][..0] == [];
    assert ApplyAll(r, st, 0, []) == st;
  }

  /** The packet is sent after the height it is attested at. */
  lemma AuditCaseTwo(c: Config, r: Request, p: Packet)
    requires c.chain == Solana && |c.discriminator| == DISCRIMINATOR_LEN
    requires Asks(r, PacketCommitment, p) && r.height == 0
    ensures SignedUntrue(c, Run(c, GENESIS, CaseTwoSteps(r, [Send(p)])), PacketCommitment, p)
  {
    ApplyOne(RulesOf(c), EMPTY, Send(p));
    WrittenAfterwards(c, r, PacketCommitment, p, [Send(p)],
                      Item(c, PacketCommitment, p, c.crypto.packetCommitment(p)));
  }

  function Acknowledging(p: Packet, receipt: entry, ack: entry): seq<Op> {
    [Receive(p, receipt), WriteAck(p.destClient, p.sequence, ack)]
  }

  lemma ApplyAcknowledging(r: Rules, p: Packet, receipt: entry, ack: entry)
    requires r.proven(p) && 0 < p.timeoutTimestamp
    ensures var store, k := ApplyAll(r, EMPTY, 0, Acknowledging(p, receipt, ack)).store, KeyOf(AckCommitment, p);
            k in store && store[k] == ack
  {
    var ops := Acknowledging(p, receipt, ack);
    assert ops[..1] == [Receive(p, receipt)];
    ApplyOne(r, EMPTY, Receive(p, receipt));
  }

  /** The packet is received and acknowledged after the height its acknowledgement is attested at. */
  lemma AuditCaseTwoAck(c: Config, r: Request, p: Packet, receipt: entry, ack: entry)
    requires c.chain == Solana && |c.discriminator| == DISCRIMINATOR_LEN && c.proven(p) && 0 < p.timeoutTimestamp
    requires Asks(r, AckCommitment, p) && r.height == 0
    ensures SignedUntrue(c, Run(c, GENESIS, CaseTwoSteps(r, Acknowledging(p, receipt, ack))), AckCommitment, p)
  {
    ApplyAcknowledging(RulesOf(c), p, receipt, ack);
    WrittenAfterwards(c, r, AckCommitment, p, Acknowledging(p, receipt, ack), Item(c, AckCommitment, p, ack));
  }
}
