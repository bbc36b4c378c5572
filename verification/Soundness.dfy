/** Everything the service signs is true of the chain, in every run. */
module Soundness {
  import opened Wrappers
  import opened Bytes
  import opened Types
  import opened Paths
  import opened World
  import opened Adapters
  import opened Attestor
  import opened Metrics
  import opened Batch
  import opened PacketLists
  import opened Signing
  import opened Service

  /** The chain settles at the heights the gate accepts, and Solana's accounts carry their discriminator. */
  predicate Sane(c: Config) {
    Settles(c.chain, c.maxReorg) && |c.discriminator| == DISCRIMINATOR_LEN
  }

  /** A packet asked about at `h` was read at `h`, or on Solana at a finalized slot at most `slotLag` before it. */
  ghost predicate ReadInRange(c: Config, w: World, h: nat, at: nat)
    requires |w.blocks| > 0
  {
    at <= Finalized(c.chain, w) && if c.chain == Solana then h <= at + c.slotLag else at == h
  }

  /** Only an EVM store, and only for a commitment that must be present, can be misread by a hash collision. */
  ghost predicate Misread(c: Config, store: Store, kind: CommitmentType, p: Packet) {
    c.chain.Evm? && kind != ReceiptCommitment && PathCollision(c.crypto, store, KeyOf(kind, p))
  }

  ghost predicate ItemSound(c: Config, w: World, kind: CommitmentType, h: nat, p: Packet, item: PacketCompact,
                            at: nat)
  {
    && at < |w.blocks|
    && ReadInRange(c, w, h, at)
    && item.path == c.crypto.keccak256(Path(KeyOf(kind, p)))
    && (item.commitment == ZERO <==> kind == ReceiptCommitment)
    && (Holds(c.crypto, StoreAt(c, w, at), kind, p, item) || Misread(c, StoreAt(c, w, at), kind, p))
  }

  /** What a claim says of the chain as it stands. */
  ghost predicate ClaimSound(c: Config, w: World, m: Claim)
    requires |w.blocks| > 0
  {
    match m
    case StateClaim(h, t) => h <= Finalized(c.chain, w) && h < |w.blocks| && w.blocks[h].time == t
    case PacketClaim(kind, h, packets, items, readAt) =>
      && h <= Finalized(c.chain, w)
      && |items| == |packets| == |readAt|
      && forall i :: 0 <= i < |packets| ==> ItemSound(c, w, kind, h, packets[i], items[i], readAt[i])
  }

  /** A claim answers its request: the same height, the request's packets in order. */
  ghost predicate ClaimFor(r: Request, m: Claim) {
    match r
    case HeightRequest => false
    case StateRequest(h) => m.StateClaim? && m.height == h
    case PacketRequest(_, h, _) => m.PacketClaim? && m.height == h && Decoded(r) == Ok((m.kind, m.packets))
  }

  ghost predicate TaskSound(c: Config, w: World, kind: CommitmentType, h: nat, p: Packet, t: Task) {
    t.Finished? ==>
      && Judged(t.verdict)
      && (t.verdict.Ok? ==> ItemSound(c, w, kind, h, p, t.verdict.value, t.readAt))
  }

  ghost predicate TasksSound(c: Config, w: World, r: Request, tasks: seq<Task>)
    requires |w.blocks| > 0
  {
    && r.PacketRequest? && Decoded(r).Ok?
    && r.height <= Finalized(c.chain, w)
    && |tasks| == |Decoded(r).value.1|
    && forall i :: 0 <= i < |tasks| ==>
         TaskSound(c, w, Decoded(r).value.0, r.height, Decoded(r).value.1[i], tasks[i])
  }

  ghost predicate JobSound(c: Config, w: World, j: Job)
    requires |w.blocks| > 0
  {
    match j.phase
    case AtGate(_) => j.request.PacketRequest? ==> Decoded(j.request).Ok?
    case AtTimestamp(_) => j.request.StateRequest? && j.request.height <= Finalized(c.chain, w)
    case AtPackets(tasks) => TasksSound(c, w, j.request, tasks)
    case AtSigner(m) => ClaimFor(j.request, m) && ClaimSound(c, w, m)
    case Resolved(_) | Closed(_) => true
  }

  // The chain moves.

  lemma FinalizedExists(chain: Chain, w: World)
    requires w.Valid()
    ensures Finalized(chain, w) < |w.blocks|
  {
  }

  lemma StoreKept(c: Config, w: World, w': World, n: nat, at: nat)
    requires Keeps(w, w', n) && at <= n
    ensures at < |w.blocks| && at < |w'.blocks|
    ensures StoreAt(c, w', at) == StoreAt(c, w, at) && w'.blocks[at] == w.blocks[at]
  {
    KeepsBelow(w, w', n, at);
    assert w.blocks[..at + 1][at] == w'.blocks[..at + 1][at];
  }

  /** The chain has moved on: finality has not receded, and the blocks it covered are in place. */
  ghost predicate Later(c: Config, w: World, w': World) {
    && w.Valid() && w'.Valid()
    && Finalized(c.chain, w) <= Finalized(c.chain, w')
    && w.final <= w'.final
    && Keeps(w, w', Finalized(c.chain, w))
  }

  lemma ItemPersists(c: Config, w: World, w': World, kind: CommitmentType, h: nat, p: Packet, item: PacketCompact,
                     at: nat)
    requires Later(c, w, w') && ItemSound(c, w, kind, h, p, item, at)
    ensures ItemSound(c, w', kind, h, p, item, at)
  {
    StoreKept(c, w, w', Finalized(c.chain, w), at);
  }

  lemma ClaimPersists(c: Config, w: World, w': World, m: Claim)
    requires Later(c, w, w') && ClaimSound(c, w, m)
    ensures ClaimSound(c, w', m)
  {
    match m
    case StateClaim(h, t) => StoreKept(c, w, w', Finalized(c.chain, w), h);
    case PacketClaim(kind, h, packets, items, readAt) =>
      forall i | 0 <= i < |packets| ensures ItemSound(c, w', kind, h, packets[i], items[i], readAt[i]) {
        ItemPersists(c, w, w', kind, h, packets[i], items[i], readAt[i]);
      }
  }

  lemma JobPersists(c: Config, w: World, w': World, j: Job)
    requires Later(c, w, w') && JobSound(c, w, j)
    ensures JobSound(c, w', j)
  {
    match j.phase {
      case AtSigner(m) => ClaimPersists(c, w, w', m);
      case AtPackets(tasks) =>
        var (kind, packets) := Decoded(j.request).value;
        forall i | 0 <= i < |tasks| ensures TaskSound(c, w', kind, j.request.height, packets[i], tasks[i]) {
          assert TaskSound(c, w, kind, j.request.height, packets[i], tasks[i]);
          if tasks[i].Finished? && tasks[i].verdict.Ok? {
            ItemPersists(c, w, w', kind, j.request.height, packets[i], tasks[i].verdict.value, tasks[i].readAt);
          }
        }
      case _ =>
    }
  }

  // A request advances.

  lemma AnswerSound(c: Config, w: World, kind: CommitmentType, h: u64, p: Packet, reply: Reply)
    requires w.Valid() && Sane(c) && h <= Finalized(c.chain, w)
    ensures var a := CommitmentAnswer(c, w, kind, h, p, reply);
            a.Answered? ==> TaskSound(c, w, kind, h, p, Finished(a.readAt, a.verdict))
  {
    var at := ReadHeightOf(c, w, h, reply);
    FinalizedExists(c.chain, w);
    AttestSound(c.crypto, c.chain, c.discriminator, StoreAt(c, w, at), kind, p, h);
  }

  lemma AdvanceSound(c: Config, w: World, r: Request, tasks: seq<Task>, i: nat, reply: Reply)
    requires w.Valid() && Sane(c) && TasksSound(c, w, r, tasks) && i < |tasks| && tasks[i].Running?
    ensures var (kind, packets) := Decoded(r).value;
            var answer := CommitmentAnswer(c, w, kind, r.height, packets[i], reply);
            TasksSound(c, w, r, tasks[i := Advance(tasks[i], answer)])
  {
    var (kind, packets) := Decoded(r).value;
    AnswerSound(c, w, kind, r.height, packets[i], reply);
  }

  lemma GatherSound(c: Config, w: World, r: Request, tasks: seq<Task>)
    requires w.Valid() && TasksSound(c, w, r, tasks) && AllFinished(tasks)
    ensures match GatherEffect(r, tasks)
            case AtSigner(m) => ClaimFor(r, m) && ClaimSound(c, w, m)
            case Resolved(Err(e)) => exists i :: FirstError(Verdicts(tasks), i, e)
            case _ => false
  {
    var (kind, packets) := Decoded(r).value;
    CollectMeaning(Verdicts(tasks));
    if Collect(Verdicts(tasks)).Ok? {
      var items := Collect(Verdicts(tasks)).value;
      forall i | 0 <= i < |packets|
        ensures ItemSound(c, w, kind, r.height, packets[i], items[i], ReadHeights(tasks)[i])
      {
        assert TaskSound(c, w, kind, r.height, packets[i], tasks[i]);
        assert Verdicts(tasks)[i] == Ok(items[i]);
      }
    }
  }

  lemma GateSound(c: Config, w: World, r: Request, attempts: nat, k: Counters, reply: Reply)
    requires w.Valid() && (r.PacketRequest? ==> Decoded(r).Ok?)
    ensures JobSound(c, w, Job(r, GateEffect(c, w, r, attempts, k, reply).0, [], []))
  {
    if r.PacketRequest? {
      DecodeAllExact(r.packets);
    }
  }

  /** Every action keeps its request sound. */
  lemma ReactSound(c: Config, w: World, j: Job, k: Counters, a: Action)
    requires w.Valid() && Sane(c) && Ready(j, a) && JobSound(c, w, j)
    ensures JobSound(c, w, Reacted(j, a, React(c, w, j, k, a)))
  {
    match a
    case ReadHeight(reply) => GateSound(c, w, j.request, j.phase.attempts, k, reply);
    case ReadTimestamp(_) => FinalizedExists(c.chain, w);
    case ReadCommitment(i, reply) => AdvanceSound(c, w, j.request, j.phase.tasks, i, reply);
    case Gather => GatherSound(c, w, j.request, j.phase.tasks);
    case Sign(_) =>
    case Close(_) =>
  }

  // The log.

  function ResponseTo(c: Config, m: Claim): Response {
    AttestationResponse(SignedAttestation(m.height, TimestampOf(m), PayloadFor(StatementOf(m)).data, SignedBy(c, m)))
  }

  predicate HasAnswer(j: Job, o: Outcome) {
    (j.phase.Resolved? || j.phase.Closed?) && j.phase.outcome == o
  }

  /** A log entry is a sound claim, signed, that answers its request and is what the request was answered with. */
  ghost predicate EntrySound(c: Config, s: Server, e: Entry)
    requires |s.world.blocks| > 0
  {
    && e.job < |s.jobs|
    && ClaimSound(c, s.world, e.claim)
    && ClaimFor(s.jobs[e.job].request, e.claim)
    && e.signature == SignedBy(c, e.claim)
    && HasAnswer(s.jobs[e.job], Ok(ResponseTo(c, e.claim)))
  }

  ghost predicate Sound(c: Config, s: Server) {
    && s.world.Valid()
    && (forall i :: 0 <= i < |s.jobs| ==> JobSound(c, s.world, s.jobs[i]))
    && (forall n :: 0 <= n < |s.log| ==> EntrySound(c, s, s.log[n]))
  }

  lemma ChainStepSound(c: Config, s: Server, e: Event)
    requires Sane(c) && Sound(c, s)
    ensures Sound(c, Next(c, s, ChainStep(e)))
    ensures Later(c, s.world, Next(c, s, ChainStep(e)).world)
  {
    var s' := Next(c, s, ChainStep(e));
    EvolveKeeps(c.chain, c.maxReorg, s.world, e);
    forall i | 0 <= i < |s'.jobs| ensures JobSound(c, s'.world, s'.jobs[i]) {
      JobPersists(c, s.world, s'.world, s.jobs[i]);
    }
    forall n | 0 <= n < |s'.log| ensures EntrySound(c, s', s'.log[n]) {
      assert EntrySound(c, s, s.log[n]);
      ClaimPersists(c, s.world, s'.world, s.log[n].claim);
    }
  }

  lemma SignatureSound(c: Config, j: Job, k: Counters, w: World, a: Action)
    requires w.Valid() && Ready(j, a) && JobSound(c, w, j)
    ensures var e := React(c, w, j, k, a);
            match e.signed
            case None => true
            case Some((m, signature)) =>
              && ClaimSound(c, w, m) && ClaimFor(j.request, m)
              && signature == SignedBy(c, m)
              && e.phase == Resolved(Ok(ResponseTo(c, m)))
  {
  }

  /** The entries logged before are still sound, and the one an action adds is. */
  lemma ActLogSound(c: Config, s: Server, i: nat, a: Action)
    requires Sound(c, s) && i < |s.jobs| && Ready(s.jobs[i], a)
    ensures var s' := Acted(c, s, i, a);
            forall n :: 0 <= n < |s'.log| ==> EntrySound(c, s', s'.log[n])
  {
    var s' := Acted(c, s, i, a);
    assert JobSound(c, s.world, s.jobs[i]);
    SignatureSound(c, s.jobs[i], s.counters, s.world, a);
    forall n | 0 <= n < |s'.log| ensures EntrySound(c, s', s'.log[n]) {
      if n < |s.log| {
        AnswerStands(c, s, i, a, s.log[n]);
      }
    }
  }

  /** A signed answer is not touched by any action. */
  lemma AnswerStands(c: Config, s: Server, i: nat, a: Action, e: Entry)
    requires s.world.Valid() && i < |s.jobs| && Ready(s.jobs[i], a) && EntrySound(c, s, e)
    ensures EntrySound(c, Acted(c, s, i, a), e)
  {
  }

  lemma ActJobsSound(c: Config, s: Server, i: nat, a: Action)
    requires Sane(c) && Sound(c, s) && i < |s.jobs| && Ready(s.jobs[i], a)
    ensures var s' := Acted(c, s, i, a);
            forall m :: 0 <= m < |s'.jobs| ==> JobSound(c, s'.world, s'.jobs[m])
  {
    assert JobSound(c, s.world, s.jobs[i]);
    ReactSound(c, s.world, s.jobs[i], s.counters, a);
  }

  lemma ActSound(c: Config, s: Server, i: nat, a: Action)
    requires Sane(c) && Sound(c, s) && i < |s.jobs| && Ready(s.jobs[i], a)
    ensures Sound(c, Acted(c, s, i, a))
  {
    ActLogSound(c, s, i, a);
    ActJobsSound(c, s, i, a);
  }

  lemma NextSound(c: Config, s: Server, step: Step)
    requires Sane(c) && Sound(c, s)
    ensures Sound(c, Next(c, s, step))
  {
    match step
    case ChainStep(e) => ChainStepSound(c, s, e);
    case Arrive(r) =>
      forall n | 0 <= n < |s.log| ensures EntrySound(c, Next(c, s, step), s.log[n]) {
        assert EntrySound(c, s, s.log[n]);
      }
    case Act(i, a) =>
      if i < |s.jobs| && Ready(s.jobs[i], a) {
        ActSound(c, s, i, a);
      }
  }

  /** In every run, every logged signature is over a claim that is true of the chain as it stands at the end. */
  lemma {:induction false} RunSound(c: Config, w: World, steps: seq<Step>)
    requires Sane(c) && w.Valid()
    ensures Sound(c, Run(c, w, steps))
  {
    if steps != [] {
      RunSound(c, w, steps[..|steps| - 1]);
      NextSound(c, Run(c, w, steps[..|steps| - 1]), steps[|steps| - 1]);
    }
  }
}
