/** Single runs, state by state: what it takes to exhibit one. */
module Traces {
  import opened Wrappers
  import opened Bytes
  import opened Types
  import opened World
  import opened Attestor
  import opened Batch
  import opened Encodings
  import opened PacketLists
  import opened Service

  ghost predicate Follows(c: Config, trace: seq<Server>, steps: seq<Step>, n: nat)
    requires n < |steps| && |trace| == |steps| + 1
  {
    trace[n].world.Valid() && trace[n + 1] == Next(c, trace[n], steps[n])
  }

  /** The states a run goes through. */
  ghost predicate Traced(c: Config, w: World, steps: seq<Step>, trace: seq<Server>)
    requires w.Valid()
  {
    && |trace| == |steps| + 1
    && trace[0] == Initial(w)
    && trace[|steps|] == Run(c, w, steps)
    && forall n :: 0 <= n < |steps| ==> Follows(c, trace, steps, n)
  }

  lemma {:induction false} Trace(c: Config, w: World, steps: seq<Step>) returns (trace: seq<Server>)
    requires w.Valid()
    ensures Traced(c, w, steps, trace)
  {
    trace := [Run(c, w, steps)];
    if steps != [] {
      var m := |steps| - 1;
      var before := Trace(c, w, steps[..m]);
      trace := before + trace;
      forall n | 0 <= n < |steps| ensures Follows(c, trace, steps, n) {
        if n < m {
          assert Follows(c, before, steps[..m], n);
        }
      }
    }
  }

  /** The run so far: the chain, and the one request's phase, with nothing signed. */
  ghost predicate Reached(s: Server, w: World, r: Request, phase: Phase) {
    s.world == w && |s.jobs| == 1 && s.jobs[0].request == r && s.jobs[0].phase == phase && s.log == []
  }

  /** The run has signed the one claim. */
  ghost predicate SignedOnly(s: Server, w: World, m: Claim) {
    s.world == w && |s.log| == 1 && s.log[0].claim == m
  }

  lemma SignStep(c: Config, s: Server, w: World, r: Request, m: Claim)
    requires w.Valid() && Reached(s, w, r, AtSigner(m))
    ensures SignedOnly(Next(c, s, Act(0, Service.Sign(true))), w, m)
  {
  }

  // One packet, attested on Solana while the chain moves between the gate and the read.

  /** One request about one packet. */
  predicate Asks(r: Request, kind: CommitmentType, p: Packet) {
    r.PacketRequest? && |r.packets| == 1 && Decoded(r) == Ok((kind, [p]))
  }

  function AskFor(kind: CommitmentType, p: Packet, height: u64): Request {
    var code := match kind case PacketCommitment => 0 case AckCommitment => 1 case ReceiptCommitment => 2;
    PacketRequest([EncodePacket(p)], height, code)
  }

  lemma SuchARequest(kind: CommitmentType, p: Packet, height: u64)
    requires |EncodePacket(p)| < U256_SIZE
    ensures Asks(AskFor(kind, p, height), kind, p)
  {
    DecodeAllEncoded([p]);
    assert EncodeEach([p]) == [EncodePacket(p)];
  }

  /** The request passes the gate, two events change the chain, and a node `behind` slots behind answers. */
  function Steps(r: Request, first: Event, second: Event, behind: nat): seq<Step> {
    [Arrive(r), Act(0, ReadHeight(Truth(0))), ChainStep(first), ChainStep(second),
     Act(0, ReadCommitment(0, Truth(behind))), Act(0, Gather), Act(0, Service.Sign(true))]
  }

  /** The chain when it answers. */
  ghost function Moved(c: Config, w: World, first: Event, second: Event): (w': World)
    requires w.Valid()
    ensures w'.Valid()
  {
    EvolveValid(c.maxReorg, w);
    var mid := Evolve(c.maxReorg, w, first);
    EvolveValid(c.maxReorg, mid);
    Evolve(c.maxReorg, mid, second)
  }

  lemma GateStep(c: Config, s: Server, w: World, r: Request)
    requires c.chain == Solana && w.Valid() && r.PacketRequest? && r.height <= w.final && |r.packets| == 1
    requires Reached(s, w, r, AtGate(0))
    ensures Reached(Next(c, s, Act(0, ReadHeight(Truth(0)))), w, r, AtPackets([Running(0)]))
  {
    assert seq(1, _ => Running(0)) == [Running(0)];
  }

  /** The read ends the one task with what the store at the node's slot comes to. */
  lemma ReadEffect(c: Config, w: World, j: Job, k: Metrics.Counters, kind: CommitmentType, p: Packet, behind: nat)
    requires c.chain == Solana && w.Valid() && Asks(j.request, kind, p) && j.phase == AtPackets([Running(0)])
    ensures Ready(j, ReadCommitment(0, Truth(behind)))
    ensures var at := SlotOf(c, w, Truth(behind));
            var verdict :=
              Attest(c.crypto, c.chain, c.discriminator, StoreAt(c, w, at), kind, p, j.request.height);
            var e := React(c, w, j, k, ReadCommitment(0, Truth(behind)));
            e.phase == AtPackets([Finished(at, verdict)]) && e.signed == None
  {
  }

  lemma ReadStep(c: Config, s: Server, w: World, r: Request, kind: CommitmentType, p: Packet, behind: nat)
    requires c.chain == Solana && w.Valid() && Asks(r, kind, p)
    requires Reached(s, w, r, AtPackets([Running(0)]))
    ensures var at := SlotOf(c, w, Truth(behind));
            var verdict := Attest(c.crypto, c.chain, c.discriminator, StoreAt(c, w, at), kind, p, r.height);
            Reached(Next(c, s, Act(0, ReadCommitment(0, Truth(behind)))), w, r, AtPackets([Finished(at, verdict)]))
  {
    ReadEffect(c, w, s.jobs[0], s.counters, kind, p, behind);
  }

  lemma GatherOne(at: nat, item: PacketCompact)
    ensures var tasks := [Finished(at, Ok(item))];
            AllFinished(tasks) && Collect(Verdicts(tasks)) == Ok([item]) && ReadHeights(tasks) == [at]
  {
    var verdicts := Verdicts([Finished(at, Ok(item))]);
    assert verdicts == [Ok(item)];
    assert verdicts[..0] == [];
    assert Collect(verdicts[..0]) == Ok([]);
    assert [] + [item] == [item];
    assert Collect(verdicts) == Ok([] + [item]);
  }

  lemma GatherStep(c: Config, s: Server, w: World, r: Request, kind: CommitmentType, p: Packet, at: nat,
                   item: PacketCompact)
    requires w.Valid() && Asks(r, kind, p) && Reached(s, w, r, AtPackets([Finished(at, Ok(item))]))
    ensures Reached(Next(c, s, Act(0, Gather)), w, r, AtSigner(PacketClaim(kind, r.height, [p], [item], [at])))
  {
    GatherOne(at, item);
  }

  lemma TraceToRead(c: Config, w: World, r: Request, kind: CommitmentType, p: Packet, first: Event, second: Event,
                    behind: nat, trace: seq<Server>)
    requires c.chain == Solana && w.Valid() && Asks(r, kind, p) && r.height <= w.final
    requires Traced(c, w, Steps(r, first, second, behind), trace)
    ensures Reached(trace[2], w, r, AtPackets([Running(0)]))
  {
    var steps := Steps(r, first, second, behind);
    assert Follows(c, trace, steps, 0) && Follows(c, trace, steps, 1);
    GateStep(c, trace[1], w, r);
  }

  lemma TraceThroughMoves(c: Config, w: World, r: Request, first: Event, second: Event, behind: nat,
                          trace: seq<Server>)
    requires w.Valid() && Traced(c, w, Steps(r, first, second, behind), trace)
    requires Reached(trace[2], w, r, AtPackets([Running(0)]))
    ensures Reached(trace[4], Moved(c, w, first, second), r, AtPackets([Running(0)]))
  {
    var steps := Steps(r, first, second, behind);
    assert Follows(c, trace, steps, 2) && Follows(c, trace, steps, 3);
  }

  /** Whatever the packet's read comes to is signed, under the height of the request. */
  lemma OneRead(c: Config, w: World, r: Request, kind: CommitmentType, p: Packet, first: Event, second: Event,
                behind: nat, item: PacketCompact)
    requires c.chain == Solana && w.Valid() && Asks(r, kind, p) && r.height <= w.final
    requires var w' := Moved(c, w, first, second);
             Attest(c.crypto, c.chain, c.discriminator, StoreAt(c, w', SlotOf(c, w', Truth(behind))), kind, p, r.height)
             == Ok(item)
    ensures var w' := Moved(c, w, first, second);
            SignedOnly(Run(c, w, Steps(r, first, second, behind)), w',
                       PacketClaim(kind, r.height, [p], [item], [SlotOf(c, w', Truth(behind))]))
  {
    var steps := Steps(r, first, second, behind);
    var w' := Moved(c, w, first, second);
    var trace := Trace(c, w, steps);
    TraceToRead(c, w, r, kind, p, first, second, behind, trace);
    TraceThroughMoves(c, w, r, first, second, behind, trace);
    TraceToSigning(c, w', w, r, kind, p, first, second, behind, item, trace);
  }

  lemma TraceToSigning(c: Config, w': World, w: World, r: Request, kind: CommitmentType, p: Packet,
                       first: Event, second: Event, behind: nat, item: PacketCompact, trace: seq<Server>)
    requires c.chain == Solana && w.Valid() && w'.Valid() && Asks(r, kind, p)
    requires Traced(c, w, Steps(r, first, second, behind), trace)
    requires Reached(trace[4], w', r, AtPackets([Running(0)]))
    requires Attest(c.crypto, c.chain, c.discriminator, StoreAt(c, w', SlotOf(c, w', Truth(behind))), kind, p, r.height)
             == Ok(item)
    ensures SignedOnly(trace[7], w', PacketClaim(kind, r.height, [p], [item], [SlotOf(c, w', Truth(behind))]))
  {
    var steps, at := Steps(r, first, second, behind), SlotOf(c, w', Truth(behind));
    assert Follows(c, trace, steps, 4) && Follows(c, trace, steps, 5) && Follows(c, trace, steps, 6);
    ReadStep(c, trace[4], w', r, kind, p, behind);
    GatherStep(c, trace[5], w', r, kind, p, at, item);
    SignStep(c, trace[6], w', r, PacketClaim(kind, r.height, [p], [item], [at]));
  }
}
