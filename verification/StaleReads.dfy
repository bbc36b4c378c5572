/**
 * How far behind a Solana node may be: what receipt attestations still mean when the read is answered
 * from an older finalized slot than the one that passed the gate.
 */
module StaleReads {
  import opened Bytes
  import opened Types
  import opened Paths
  import opened Ledger
  import opened World
  import opened Adapters
  import opened Attestor
  import opened Encodings
  import opened Service
  import opened Soundness
  import opened LatestSlot
  import opened Timeouts
  import opened Traces

  /** The receipt attestation is true at the height it names. */
  ghost predicate TrueAsSigned(c: Config, s: Server, m: Claim, i: nat)
    requires m.PacketClaim? && i < |m.packets| == |m.items|
  {
    && m.height < |s.world.blocks|
    && Holds(c.crypto, StoreAt(c, s.world, m.height), ReceiptCommitment, m.packets[i], m.items[i])
  }

  ghost predicate ReceiptsTrue(c: Config) {
    forall w: World, steps: seq<Step>, n: nat, i: nat ::
      w.Valid() && Logged(c, w, steps, n, i, ReceiptCommitment) ==>
        TrueAsSigned(c, Run(c, w, steps), Run(c, w, steps).log[n].claim, i)
  }

  /** If the packet is due at the attested height, no block of the chain holds its receipt. */
  ghost predicate SafeToTimeOut(c: Config, s: Server, m: Claim, i: nat)
    requires m.PacketClaim? && i < |m.packets|
  {
    Due(s.world, m, i) ==>
      forall x: nat :: x < |s.world.blocks| ==>
        NeverReceived(RulesOf(c), At(RulesOf(c), s.world.blocks, x), m.packets[i])
  }

  ghost predicate TimeoutsSafe(c: Config) {
    forall w: World, steps: seq<Step>, n: nat, i: nat ::
      w.Valid() && Logged(c, w, steps, n, i, ReceiptCommitment) ==>
        SafeToTimeOut(c, Run(c, w, steps), Run(c, w, steps).log[n].claim, i)
  }

  /** A finalized chain in which the packet is received in the block after genesis, followed by `more`. */
  function Receiving(p: Packet, receipt: entry, more: seq<Block>): World {
    World([Block(0, []), Block(0, [Receive(p, receipt)])] + more, 1 + |more|)
  }

  lemma ReceivedAtOne(r: Rules, p: Packet, receipt: entry, more: seq<Block>)
    requires r.proven(p) && 0 < p.timeoutTimestamp
    ensures var blocks := Receiving(p, receipt, more).blocks;
            && At(r, blocks, 0) == EMPTY
            && At(r, blocks, 1).received == map[(p.destClient, p.sequence) := p]
            && KeyOf(ReceiptCommitment, p) in At(r, blocks, 1).store
  {
    var blocks := Receiving(p, receipt, more).blocks;
    var first, ops := Block(0, []), [Receive(p, receipt)];
    assert blocks[..1] == [first] && blocks[..2] == [first, Block(0, ops)];
    assert [first][..0] == [] && [first, Block(0, ops)][..1] == [first];
    assert After(r, [first]) == EMPTY;
    assert ops[..0] == [];
    assert ApplyAll(r, EMPTY, 0, ops) == Apply(r, ApplyAll(r, EMPTY, 0, []), 0, Receive(p, receipt));
  }

  /** The node answers from genesis, and the absence of the receipt is signed for the latest finalized slot. */
  lemma SignedFromGenesis(c: Config, p: Packet, receipt: entry, more: seq<Block>) returns (steps: seq<Step>)
    requires c.chain == Solana && |c.discriminator| == DISCRIMINATOR_LEN && 1 + |more| <= c.slotLag
    requires c.proven(p) && 0 < p.timeoutTimestamp && |EncodePacket(p)| < U256_SIZE && 1 + |more| < U64_SIZE
    requires Receiving(p, receipt, more).Valid()
    ensures var w := Receiving(p, receipt, more);
            var s := Run(c, w, steps);
            && s.world == w && Logged(c, w, steps, 0, 0, ReceiptCommitment)
            && s.log[0].claim.height == w.final && s.log[0].claim.packets == [p]
  {
    var w, item := Receiving(p, receipt, more),
                   PacketCompact(c.crypto.keccak256(Path(KeyOf(ReceiptCommitment, p))), ZERO);
    var r := AskFor(ReceiptCommitment, p, w.final);
    var still := Finalize(w.final);
    SuchARequest(ReceiptCommitment, p, w.final);
    ReceivedAtOne(RulesOf(c), p, receipt, more);
    AttestExact(c.crypto, c.chain, c.discriminator, StoreAt(c, w, 0), ReceiptCommitment, p, w.final);
    assert Holds(c.crypto, StoreAt(c, w, 0), ReceiptCommitment, p, item);
    OneRead(c, w, r, ReceiptCommitment, p, still, still, w.final, item);
    steps := Steps(r, still, still, w.final);
  }

  /** A node one slot behind is enough for an untrue receipt attestation. */
  lemma OneBehindIsUntrue(c: Config, p: Packet, receipt: entry)
    requires c.chain == Solana && |c.discriminator| == DISCRIMINATOR_LEN && 1 <= c.slotLag
    requires c.proven(p) && 0 < p.timeoutTimestamp && |EncodePacket(p)| < U256_SIZE
    ensures !ReceiptsTrue(c)
  {
    var w := Receiving(p, receipt, []);
    var steps := SignedFromGenesis(c, p, receipt, []);
    ReceivedAtOne(RulesOf(c), p, receipt, []);
    assert !TrueAsSigned(c, Run(c, w, steps), Run(c, w, steps).log[0].claim, 0);
  }

  /** A node two slots behind is enough for an unsafe timeout. */
  lemma TwoBehindIsUnsafe(c: Config, p: Packet, receipt: entry)
    requires c.chain == Solana && |c.discriminator| == DISCRIMINATOR_LEN && 2 <= c.slotLag
    requires c.proven(p) && 0 < p.timeoutTimestamp && |EncodePacket(p)| < U256_SIZE
    ensures !TimeoutsSafe(c)
  {
    var more := [Block(p.timeoutTimestamp, [])];
    var w := Receiving(p, receipt, more);
    var steps := SignedFromGenesis(c, p, receipt, more);
    ReceivedAtOne(RulesOf(c), p, receipt, more);
    assert !NeverReceived(RulesOf(c), At(RulesOf(c), w.blocks, 1), p);
    assert !SafeToTimeOut(c, Run(c, w, steps), Run(c, w, steps).log[0].claim, 0);
  }

  /** Receipt attestations are true at their height if and only if no node lags behind. */
  lemma ReceiptsTrueIffUpToDate(c: Config, p: Packet, receipt: entry)
    requires c.chain == Solana && Sane(c)
    requires c.proven(p) && 0 < p.timeoutTimestamp && |EncodePacket(p)| < U256_SIZE
    ensures ReceiptsTrue(c) <==> c.slotLag == 0
  {
    if c.slotLag == 0 {
      forall w: World, steps: seq<Step>, n: nat, i: nat | w.Valid() && Logged(c, w, steps, n, i, ReceiptCommitment)
        ensures TrueAsSigned(c, Run(c, w, steps), Run(c, w, steps).log[n].claim, i)
      {
        ReceiptTrueAtHeight(c, w, steps, n, i);
      }
    } else {
      OneBehindIsUntrue(c, p, receipt);
    }
  }

  lemma LoggedSafe(c: Config, w: World, steps: seq<Step>, n: nat, i: nat)
    requires Sane(c) && w.Valid() && Logged(c, w, steps, n, i, ReceiptCommitment)
    requires c.slotLag <= 1
    ensures SafeToTimeOut(c, Run(c, w, steps), Run(c, w, steps).log[n].claim, i)
  {
    var s := Run(c, w, steps);
    RunSound(c, w, steps);
    assert EntrySound(c, s, s.log[n]);
    if Due(s.world, s.log[n].claim, i) {
      forall x: nat | x < |s.world.blocks|
        ensures NeverReceived(RulesOf(c), At(RulesOf(c), s.world.blocks, x), s.log[n].claim.packets[i])
      {
        DueReceiptFinal(c, s.world, s.log[n].claim, i, x);
      }
    }
  }

  /** Timeouts stay safe with nodes one slot behind, and with none further. */
  lemma TimeoutsSafeIffOneBehind(c: Config, p: Packet, receipt: entry)
    requires c.chain == Solana && Sane(c)
    requires c.proven(p) && 0 < p.timeoutTimestamp && |EncodePacket(p)| < U256_SIZE
    ensures TimeoutsSafe(c) <==> c.slotLag <= 1
  {
    if c.slotLag <= 1 {
      forall w: World, steps: seq<Step>, n: nat, i: nat | w.Valid() && Logged(c, w, steps, n, i, ReceiptCommitment)
        ensures SafeToTimeOut(c, Run(c, w, steps), Run(c, w, steps).log[n].claim, i)
      {
        LoggedSafe(c, w, steps, n, i);
      }
    } else {
      TwoBehindIsUnsafe(c, p, receipt);
    }
  }
}
