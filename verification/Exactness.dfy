/** The assumption on reorganisations is no stronger than the service needs. */
module Exactness {
  import opened Ledger
  import opened World
  import opened Adapters
  import opened Service
  import opened Soundness
  import opened Traces

  /** In every run, whatever was signed is true of the chain. */
  ghost predicate SignsTruth(c: Config) {
    forall w: World, steps: seq<Step>, n: nat ::
      w.Valid() && n < |Run(c, w, steps).log| ==> LogTrue(c, Run(c, w, steps), n)
  }

  ghost predicate LogTrue(c: Config, s: Server, n: nat)
    requires s.world.Valid() && n < |s.log|
  {
    ClaimSound(c, s.world, s.log[n].claim)
  }

  const STALE := Block(0, [])
  const FRESH := Block(1, [])

  function Chained(n: nat, rest: Block): World {
    World([STALE] + seq(n, _ => rest), 0)
  }

  /** The state of height 1 is attested, then every block after genesis is replaced. */
  function ReorgSteps(n: nat): seq<Step> {
    [Arrive(StateRequest(1)), Act(0, ReadHeight(Truth(0))), Act(0, ReadTimestamp(Truth(0))), Act(0, Service.Sign(true)),
     ChainStep(Reorg(n, seq(n, _ => FRESH)))]
  }

  predicate Volatile(c: Config) {
    match c.chain
    case Evm(Some(offset)) => offset < c.maxReorg
    case Cosmos => 0 < c.maxReorg
    case _ => false
  }

  lemma ReorgStep(c: Config, s: Server, m: Claim)
    requires Volatile(c) && SignedOnly(s, Chained(c.maxReorg, STALE), m)
    ensures SignedOnly(Next(c, s, ReorgSteps(c.maxReorg)[4]), Chained(c.maxReorg, FRESH), m)
  {
    var w, n := Chained(c.maxReorg, STALE), c.maxReorg;
    var branch := seq(n, _ => FRESH);
    assert w.blocks[..|w.blocks| - n] == [STALE];
    assert Possible(n, w, Reorg(n, branch));
  }

  lemma GateSteps(c: Config, w: World, trace: seq<Server>)
    requires Volatile(c) && w == Chained(c.maxReorg, STALE) && Traced(c, w, ReorgSteps(c.maxReorg), trace)
    ensures Reached(trace[2], w, StateRequest(1), AtTimestamp(0))
  {
    var steps := ReorgSteps(c.maxReorg);
    assert Follows(c, trace, steps, 0) && Follows(c, trace, steps, 1);
  }

  lemma TimestampStep(c: Config, w: World, trace: seq<Server>)
    requires Volatile(c) && w == Chained(c.maxReorg, STALE) && Traced(c, w, ReorgSteps(c.maxReorg), trace)
    requires Reached(trace[2], w, StateRequest(1), AtTimestamp(0))
    ensures Reached(trace[3], w, StateRequest(1), AtSigner(StateClaim(1, 0)))
  {
    assert Follows(c, trace, ReorgSteps(c.maxReorg), 2);
  }

  /** The run signs time 0 for the block at height 1, whose time is then 1. */
  lemma ReorgRun(c: Config)
    requires Volatile(c)
    ensures SignedOnly(Run(c, Chained(c.maxReorg, STALE), ReorgSteps(c.maxReorg)), Chained(c.maxReorg, FRESH),
                       StateClaim(1, 0))
  {
    var w, steps := Chained(c.maxReorg, STALE), ReorgSteps(c.maxReorg);
    var trace := Trace(c, w, steps);
    GateSteps(c, w, trace);
    TimestampStep(c, w, trace);
    assert Follows(c, trace, steps, 3) && Follows(c, trace, steps, 4);
    SignStep(c, trace[3], w, StateRequest(1), StateClaim(1, 0));
    ReorgStep(c, trace[4], StateClaim(1, 0));
  }

  /** Everything signed is true of the chain if and only if the chain settles at the heights the gate accepts. */
  lemma SignsTruthIffSettles(c: Config)
    requires |c.discriminator| == DISCRIMINATOR_LEN
    ensures SignsTruth(c) <==> Settles(c.chain, c.maxReorg)
  {
    if Settles(c.chain, c.maxReorg) {
      forall w: World, steps: seq<Step>, n: nat | w.Valid() && n < |Run(c, w, steps).log|
        ensures LogTrue(c, Run(c, w, steps), n)
      {
        RunSound(c, w, steps);
        assert EntrySound(c, Run(c, w, steps), Run(c, w, steps).log[n]);
      }
    } else {
      ReorgRun(c);
      var w, steps := Chained(c.maxReorg, STALE), ReorgSteps(c.maxReorg);
      assert !LogTrue(c, Run(c, w, steps), 0);
    }
  }
}
