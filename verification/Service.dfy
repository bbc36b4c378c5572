/** The attestation service as a step machine: requests, retries and the chain interleave freely. */
module Service {
  import opened Wrappers
  import opened Bytes
  import opened Types
  import opened Ledger
  import opened World
  import opened Adapters
  import opened Attestor
  import opened Retry
  import opened Metrics
  import opened Labels
  import opened Gate
  import opened Batch
  import opened PacketLists
  import opened Signing

  /**
   * The deployment: the chain attested to, how deep it reorganises, how many slots a Solana node may be
   * behind the latest finalized one, and the primitives it uses.
   */
  datatype Config = Config(
    chain: Chain, maxReorg: nat, slotLag: nat, discriminator: bytes,
    crypto: Crypto, proven: Packet -> bool, scheme: Scheme)

  function RulesOf(c: Config): Rules {
    Rules(c.crypto.packetCommitment, c.proven)
  }

  datatype Request =
    | HeightRequest
    | StateRequest(height: u64)
    | PacketRequest(packets: seq<bytes>, height: u64, commitmentType: int)

  function MethodOf(r: Request): Method {
    match r
    case HeightRequest => LatestHeight
    case StateRequest(_) => StateAttestation
    case PacketRequest(_, _, _) => PacketAttestation
  }

  function KindOf(commitmentType: int): Result<CommitmentType, AttestorError> {
    if commitmentType == 0 then Ok(PacketCommitment)
    else if commitmentType == 1 then Ok(AckCommitment)
    else if commitmentType == 2 then Ok(ReceiptCommitment)
    else Err(MalformedCommitmentType)
  }

  /** Packets are decoded before the commitment type is. */
  function Decoded(r: Request): Result<(CommitmentType, seq<Packet>), AttestorError>
    requires r.PacketRequest?
  {
    match DecodeAll(r.packets)
    case Err(e) => Err(e)
    case Ok(packets) => match KindOf(r.commitmentType) case Err(e) => Err(e) case Ok(kind) => Ok((kind, packets))
  }

  /** What a request has established by the time it is to be signed, and where each packet was read. */
  datatype Claim =
    | StateClaim(height: u64, timestamp: u64)
    | PacketClaim(kind: CommitmentType, height: u64, packets: seq<Packet>, items: seq<PacketCompact>, readAt: seq<nat>)

  function StatementOf(m: Claim): Statement {
    match m
    case StateClaim(h, t) => StateStatement(h, t)
    case PacketClaim(_, h, _, items, _) => PacketStatement(h, items)
  }

  datatype Response = HeightResponse(height: nat) | AttestationResponse(attestation: SignedAttestation)

  type Outcome = Result<Response, AttestorError>

  /** How far a request is; a number counts the failed attempts of the read under way. */
  datatype Phase =
    | AtGate(attempts: nat)
    | AtTimestamp(attempts: nat)
    | AtPackets(tasks: seq<Task>)
    | AtSigner(claim: Claim)
    | Resolved(outcome: Outcome)
    | Closed(outcome: Outcome)

  /** What a chain RPC is made for. */
  datatype Query = HeightQuery | TimestampQuery | CommitmentQuery(packet: nat)

  /** How an RPC attempt ends: without a reply, which is worth another one; with "no such block"; or with a reply. */
  datatype Ending = NoReply | NoBlock | Replied

  datatype Attempt = Attempt(query: Query, ending: Ending)

  /** The label under which a query's failures are counted. */
  function OperationOf(q: Query): string {
    match q
    case HeightQuery => "get_last_height"
    case TimestampQuery => "get_block_timestamp"
    case CommitmentQuery(_) => READ
  }

  /** `attempts` are the chain RPC attempts made for the request, `ended` keeps its tasks once they are gathered. */
  datatype Job = Job(request: Request, phase: Phase, attempts: seq<Attempt>, ended: seq<Task>)

  datatype Entry = Entry(job: nat, claim: Claim, signature: bytes)

  datatype Server = Server(world: World, jobs: seq<Job>, log: seq<Entry>, counters: Counters)

  /**
   * The node's behaviour on one attempt: no answer, no such block, or the truth at that moment,
   * which a Solana node may know only up to some slots behind.
   */
  datatype Reply = Unreachable | Absent | Truth(behind: nat)

  datatype Action =
    | ReadHeight(reply: Reply)
    | ReadTimestamp(reply: Reply)
    | ReadCommitment(packet: nat, reply: Reply)
    | Gather
    | Sign(ok: bool)
    | Close(duration: nat)

  datatype Step =
    | ChainStep(event: Event)
    | Arrive(request: Request)
    | Act(job: nat, action: Action)

  /** What an action changes: the request's phase and its RPC attempts, the counters, the signer's log. */
  datatype Effect = Effect(phase: Phase, attempts: seq<Attempt>, counters: Counters, signed: Option<(Claim, bytes)>)

  function Fail(e: AdapterError): Phase {
    Resolved(Err(AdapterFailure(e)))
  }

  /** A failed attempt: another one, or after the third the error and its counter. */
  function Retried(again: Phase, attempts: nat, operation: string, k: Counters): (Phase, Counters) {
    if attempts + 1 < MAX_ATTEMPTS then (again, k) else (Fail(RetrievalError), RetryFailed(k, operation))
  }

  /** Only an EVM node answers "no such block"; the others fail the attempt. */
  function EndingOf(c: Config, reply: Reply): Ending {
    match reply
    case Unreachable => NoReply
    case Absent => if c.chain.Evm? then NoBlock else NoReply
    case Truth(_) => Replied
  }

  /** The slot a Solana node answers from: the latest finalized one it knows of. */
  function SlotOf(c: Config, w: World, reply: Reply): nat {
    var behind := if reply.Truth? then reply.behind else 0;
    SaturatingSub(w.final, if behind <= c.slotLag then behind else c.slotLag)
  }

  function LastHeightOf(c: Config, w: World, reply: Reply): nat
    requires |w.blocks| > 0
  {
    if c.chain == Solana then SlotOf(c, w, reply) else Finalized(c.chain, w)
  }

  function GateEffect(c: Config, w: World, r: Request, attempts: nat, k: Counters, reply: Reply): (Phase, Counters)
    requires |w.blocks| > 0
  {
    match EndingOf(c, reply)
    case NoBlock => (Fail(BlockNotFinalized), k)
    case NoReply => Retried(AtGate(attempts + 1), attempts, OperationOf(HeightQuery), k)
    case Replied =>
      var f := LastHeightOf(c, w, reply);
      match r
      case HeightRequest => (Resolved(Ok(HeightResponse(f))), HeightSet(k, f))
      case StateRequest(h) => (Gated(f, h, AtTimestamp(0)), GateCounted(k, Ok(f), h))
      case PacketRequest(packets, h, _) =>
        (Gated(f, h, AtPackets(seq(|packets|, _ => Running(0)))), GateCounted(k, Ok(f), h))
  }

  function Gated(finalized: nat, height: u64, next: Phase): Phase {
    match Validate(Ok(finalized), height) case Err(e) => Resolved(Err(e)) case Ok(_) => next
  }

  /** Nobody has a block above the tip. */
  function BlockReply(w: World, h: nat, reply: Reply): Reply {
    if |w.blocks| <= h && reply.Truth? then Absent else reply
  }

  function TimestampEffect(c: Config, w: World, h: u64, attempts: nat, k: Counters, reply: Reply): (Phase, Counters) {
    match EndingOf(c, BlockReply(w, h, reply))
    case NoBlock => (Fail(BlockNotFinalized), k)
    case NoReply => Retried(AtTimestamp(attempts + 1), attempts, OperationOf(TimestampQuery), k)
    case Replied =>
      var t := w.blocks[h].time;
      if 0 <= t < U64_SIZE then (AtSigner(StateClaim(h, t)), k) else (Fail(RetrievalError), k)
  }

  /** The height a packet is read at: Solana answers only for the slot its node takes for the last finalized one. */
  function ReadHeightOf(c: Config, w: World, h: u64, reply: Reply): nat {
    if c.chain == Solana then SlotOf(c, w, reply) else h
  }

  ghost function StoreAt(c: Config, w: World, height: nat): Store
    requires height < |w.blocks|
  {
    At(RulesOf(c), w.blocks, height).store
  }

  ghost function CommitmentAnswer(c: Config, w: World, kind: CommitmentType, h: u64, p: Packet, reply: Reply): Answer {
    var at := ReadHeightOf(c, w, h, reply);
    if !reply.Truth? || |w.blocks| <= at then Failed
    else Batch.Answered(at, Attest(c.crypto, c.chain, c.discriminator, StoreAt(c, w, at), kind, p, h))
  }

  function ReadHeights(tasks: seq<Task>): seq<nat>
    requires AllFinished(tasks)
  {
    seq(|tasks|, i requires 0 <= i < |tasks| => tasks[i].readAt)
  }

  function GatherEffect(r: Request, tasks: seq<Task>): Phase
    requires r.PacketRequest? && Decoded(r).Ok? && AllFinished(tasks)
  {
    var (kind, packets) := Decoded(r).value;
    match Collect(Verdicts(tasks))
    case Err(e) => Resolved(Err(e))
    case Ok(items) => AtSigner(PacketClaim(kind, r.height, packets, items, ReadHeights(tasks)))
  }

  function SignedBy(c: Config, m: Claim): bytes {
    Signature(c.crypto, c.scheme, PayloadFor(StatementOf(m)))
  }

  function TimestampOf(m: Claim): Option<u64> {
    match m case StateClaim(_, t) => Some(t) case PacketClaim(_, _, _, _, _) => None
  }

  function SignEffect(c: Config, m: Claim, k: Counters, ok: bool): Effect {
    var signed := if ok then Some(SignedBy(c, m)) else None;
    var phase := match SignAttestation(m.height, TimestampOf(m), PayloadFor(StatementOf(m)), signed)
                 case Err(e) => Resolved(Err(e))
                 case Ok(a) => Resolved(Ok(AttestationResponse(a)));
    Effect(phase, [], Signed(k, ok), if ok then Some((m, SignedBy(c, m))) else None)
  }

  /** The actions a request is ready for. */
  predicate Ready(j: Job, a: Action) {
    match a
    case ReadHeight(_) => j.phase.AtGate?
    case ReadTimestamp(_) => j.phase.AtTimestamp? && j.request.StateRequest?
    case ReadCommitment(i, _) =>
      && j.phase.AtPackets? && i < |j.phase.tasks| && j.phase.tasks[i].Running?
      && j.request.PacketRequest? && Decoded(j.request).Ok? && i < |Decoded(j.request).value.1|
    case Gather =>
      j.phase.AtPackets? && AllFinished(j.phase.tasks) && j.request.PacketRequest? && Decoded(j.request).Ok?
    case Sign(_) => j.phase.AtSigner?
    case Close(_) => j.phase.Resolved?
  }

  ghost function React(c: Config, w: World, j: Job, k: Counters, a: Action): Effect
    requires w.Valid() && Ready(j, a)
  {
    match a
    case ReadHeight(reply) =>
      var (phase, k') := GateEffect(c, w, j.request, j.phase.attempts, k, reply);
      Effect(phase, [Attempt(HeightQuery, EndingOf(c, reply))], k', None)
    case ReadTimestamp(reply) =>
      if c.chain == Cosmos && j.request.height > I64_MAX then Effect(Fail(InvalidHeight), [], k, None)
      else
        var (phase, k') := TimestampEffect(c, w, j.request.height, j.phase.attempts, k, reply);
        Effect(phase, [Attempt(TimestampQuery, EndingOf(c, BlockReply(w, j.request.height, reply)))], k', None)
    case ReadCommitment(i, reply) =>
      var (kind, packets) := Decoded(j.request).value;
      var answer := CommitmentAnswer(c, w, kind, j.request.height, packets[i], reply);
      var t := j.phase.tasks[i];
      var ending := if answer.Failed? then NoReply else Replied;
      Effect(AtPackets(j.phase.tasks[i := Advance(t, answer)]), [Attempt(CommitmentQuery(i), ending)],
             AnswerCounted(k, t.attempts, answer), None)
    case Gather => Effect(GatherEffect(j.request, j.phase.tasks), [], k, None)
    case Sign(ok) => SignEffect(c, j.phase.claim, k, ok)
    case Close(duration) =>
      Effect(Closed(j.phase.outcome), [],
             RpcRecorded(k, MethodLabel(MethodOf(j.request)), CodeLabel(ResultCode(j.phase.outcome)), duration), None)
  }

  function Reacted(j: Job, a: Action, e: Effect): Job {
    var ended := if a.Gather? && j.phase.AtPackets? then j.phase.tasks else j.ended;
    Job(j.request, e.phase, j.attempts + e.attempts, ended)
  }

  function Arrived(r: Request): Job {
    if r.PacketRequest? && Decoded(r).Err? then Job(r, Resolved(Err(Decoded(r).error)), [], [])
    else Job(r, AtGate(0), [], [])
  }

  ghost function Next(c: Config, s: Server, step: Step): Server
    requires s.world.Valid()
  {
    match step
    case ChainStep(e) => s.(world := Evolve(c.maxReorg, s.world, e))
    case Arrive(r) => s.(jobs := s.jobs + [Arrived(r)])
    case Act(i, a) => if i < |s.jobs| && Ready(s.jobs[i], a) then Acted(c, s, i, a) else s
  }

  ghost function Acted(c: Config, s: Server, i: nat, a: Action): Server
    requires s.world.Valid() && i < |s.jobs| && Ready(s.jobs[i], a)
  {
    var j := s.jobs[i];
    var e := React(c, s.world, j, s.counters, a);
    var log := match e.signed case None => s.log case Some((m, signature)) => s.log + [Entry(i, m, signature)];
    Server(s.world, s.jobs[i := Reacted(j, a, e)], log, e.counters)
  }

  /** The service right after its metrics are initialised, in front of a chain. */
  function Initial(w: World): Server {
    Server(w, [], [], ZEROED)
  }

  /** Any run: every finite interleaving; a step that is not enabled changes nothing. */
  ghost function Run(c: Config, w: World, steps: seq<Step>): (s: Server)
    requires w.Valid()
    ensures s.world.Valid()
  {
    if steps == [] then Initial(w)
    else
      var before := Run(c, w, steps[..|steps| - 1]);
      EvolveValid(c.maxReorg, before.world);
      Next(c, before, steps[|steps| - 1])
  }

  lemma EvolveValid(maxReorg: nat, w: World)
    requires w.Valid()
    ensures forall e :: Evolve(maxReorg, w, e).Valid()
  {
  }
}
