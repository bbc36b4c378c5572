/** The conservation laws of the metrics, from the balance of each counter. */
module Conservation {
  import opened Wrappers
  import opened Types
  import opened World
  import opened Labels
  import opened Metrics
  import opened Batch
  import opened PacketLists
  import opened Service
  import opened Answers
  import opened Accounting

  /** Requests whose handler has ended but which the middleware has not recorded yet. */
  function InFlight(law: Law, jobs: seq<Job>): nat {
    if jobs == [] then 0
    else
      var last := jobs[|jobs| - 1];
      InFlight(law, jobs[..|jobs| - 1]) + if last.phase.Resolved? then Share(law, last) else 0
  }

  predicate Quiescent(s: Server) {
    forall i :: 0 <= i < |s.jobs| ==> s.jobs[i].phase.Closed?
  }

  lemma {:induction false} NothingInFlight(law: Law, jobs: seq<Job>)
    requires forall i :: 0 <= i < |jobs| ==> jobs[i].phase.Closed?
    ensures InFlight(law, jobs) == 0
  {
    if jobs != [] {
      NothingInFlight(law, jobs[..|jobs| - 1]);
    }
  }

  /** Each kind of request answers in its own way, and an error that is a failed validation was one of its packets'. */
  ghost predicate Typed(j: Job) {
    match j.phase
    case AtGate(_) => true
    case AtTimestamp(_) => j.request.StateRequest?
    case AtPackets(_) => j.request.PacketRequest?
    case AtSigner(_) => !j.request.HeightRequest?
    case Resolved(o) => Answerable(j, o)
    case Closed(o) => Answerable(j, o)
  }

  ghost predicate Answerable(j: Job, o: Outcome) {
    match o
    case Ok(response) => response.HeightResponse? <==> j.request.HeightRequest?
    case Err(e) => FailureOf(e).Some? ==> Tally(j.ended, FailureOf(e).value) >= 1
  }

  lemma {:induction false} EndedInIsTallied(tasks: seq<Task>, i: nat, kind: FailureKind)
    requires i < |tasks| && EndedIn(tasks[i], kind)
    ensures Tally(tasks, kind) >= 1
  {
    if i < |tasks| - 1 {
      EndedInIsTallied(tasks[..|tasks| - 1], i, kind);
    }
  }

  lemma GatherTyped(c: Config, w: World, j: Job, k: Counters)
    requires w.Valid() && Ready(j, Gather)
    ensures Typed(Reacted(j, Gather, React(c, w, j, k, Gather)))
  {
    var tasks := j.phase.tasks;
    CollectMeaning(Verdicts(tasks));
    match Collect(Verdicts(tasks))
    case Ok(_) =>
    case Err(e) =>
      var i: nat :| FirstError(Verdicts(tasks), i, e);
      if FailureOf(e).Some? {
        EndedInIsTallied(tasks, i, FailureOf(e).value);
      }
  }

  lemma ReactTyped(c: Config, w: World, j: Job, k: Counters, a: Action)
    requires w.Valid() && Ready(j, a) && Typed(j)
    ensures Typed(Reacted(j, a, React(c, w, j, k, a)))
  {
    if a.Gather? {
      GatherTyped(c, w, j, k);
    }
  }

  lemma {:induction false} RunTyped(c: Config, w: World, steps: seq<Step>, i: nat)
    requires w.Valid() && i < |Run(c, w, steps).jobs|
    ensures Typed(Run(c, w, steps).jobs[i])
  {
    var n := |steps| - 1;
    var s := Run(c, w, steps[..n]);
    match steps[n] {
      case Arrive(r) =>
        if i < |s.jobs| {
          RunTyped(c, w, steps[..n], i);
        } else if r.PacketRequest? {
          DecodeAllExact(r.packets);
        }
      case Act(x, a) =>
        RunTyped(c, w, steps[..n], i);
        if x == i && Ready(s.jobs[i], a) {
          ReactTyped(c, s.world, s.jobs[i], s.counters, a);
        }
      case _ => RunTyped(c, w, steps[..n], i);
    }
  }

  /** Only a refused height answers FailedPrecondition, and only a missing commitment NotFound. */
  lemma CodesOfErrors(e: AttestorError)
    ensures StatusCode(e) == FailedPrecondition <==> e == HeightNotFinalized
    ensures StatusCode(e) == NotFound <==> FailureOf(e) == Some(FailNotFound)
    ensures StatusCode(e) == InvalidArgument <==> e.InvalidCommitment? || e == MalformedCommitmentType
    ensures StatusCode(e) == Internal <==>
            e.AdapterFailure? || e == AbiError || e == SignerFailure || e == SignerInitError
    ensures StatusCode(e) != Success
  {
  }

  // Shares add up, request by request.

  lemma {:induction false} SignShares(jobs: seq<Job>)
    requires forall i :: 0 <= i < |jobs| ==> Typed(jobs[i])
    ensures Total(OkSigns, jobs) ==
            Total(Requests(StateAttestation, Success), jobs) + Total(Requests(PacketAttestation, Success), jobs)
            + InFlight(OkSigns, jobs)
  {
    if jobs != [] {
      var j := jobs[|jobs| - 1];
      SignShares(jobs[..|jobs| - 1]);
      if j.phase.Closed? && j.phase.outcome.Err? {
        CodesOfErrors(j.phase.outcome.error);
      }
    }
  }

  lemma {:induction false} RejectionShares(jobs: seq<Job>)
    ensures Total(Rejections, jobs) ==
            Total(Requests(LatestHeight, FailedPrecondition), jobs)
            + Total(Requests(StateAttestation, FailedPrecondition), jobs)
            + Total(Requests(PacketAttestation, FailedPrecondition), jobs) + InFlight(Rejections, jobs)
  {
    if jobs != [] {
      var j := jobs[|jobs| - 1];
      RejectionShares(jobs[..|jobs| - 1]);
      if j.phase.Closed? && j.phase.outcome.Err? {
        CodesOfErrors(j.phase.outcome.error);
      }
    }
  }

  lemma {:induction false} DurationShares(rpc: Method, jobs: seq<Job>)
    ensures Total(Durations(rpc), jobs) ==
            Total(Requests(rpc, Success), jobs) + Total(Requests(rpc, FailedPrecondition), jobs)
            + Total(Requests(rpc, NotFound), jobs) + Total(Requests(rpc, InvalidArgument), jobs)
            + Total(Requests(rpc, Internal), jobs)
  {
    if jobs != [] {
      DurationShares(rpc, jobs[..|jobs| - 1]);
    }
  }

  lemma {:induction false} NotFoundShares(jobs: seq<Job>)
    requires forall i :: 0 <= i < |jobs| ==> Typed(jobs[i])
    ensures Total(Requests(PacketAttestation, NotFound), jobs) <= Total(Failures(FailNotFound), jobs)
  {
    if jobs != [] {
      var j := jobs[|jobs| - 1];
      NotFoundShares(jobs[..|jobs| - 1]);
      if j.phase.Closed? && j.phase.outcome.Err? {
        CodesOfErrors(j.phase.outcome.error);
      }
    }
  }

  /** Successful signings are the attestations recorded as ok, plus those about to be. */
  lemma SignsConserved(c: Config, w: World, steps: seq<Step>)
    requires w.Valid()
    ensures var s := Run(c, w, steps);
            && Counted(OkSigns, s.counters) ==
               Counted(Requests(StateAttestation, Success), s.counters)
               + Counted(Requests(PacketAttestation, Success), s.counters) + InFlight(OkSigns, s.jobs)
            && Counted(OkSigns, s.counters) == |s.log|
            && (Quiescent(s) ==> InFlight(OkSigns, s.jobs) == 0)
  {
    var s := Run(c, w, steps);
    RunBalances(OkSigns, c, w, steps);
    RunBalances(Requests(StateAttestation, Success), c, w, steps);
    RunBalances(Requests(PacketAttestation, Success), c, w, steps);
    forall i | 0 <= i < |s.jobs| ensures Typed(s.jobs[i]) {
      RunTyped(c, w, steps, i);
    }
    SignShares(s.jobs);
    RunLogCounted(c, w, steps);
    if Quiescent(s) {
      NothingInFlight(OkSigns, s.jobs);
    }
  }

  lemma {:induction false} RunLogCounted(c: Config, w: World, steps: seq<Step>)
    requires w.Valid()
    ensures |Run(c, w, steps).log| == Counted(OkSigns, Run(c, w, steps).counters)
  {
    if steps != [] {
      var s := Run(c, w, steps[..|steps| - 1]);
      RunLogCounted(c, w, steps[..|steps| - 1]);
      match steps[|steps| - 1]
      case Act(i, a) =>
        if i < |s.jobs| && Ready(s.jobs[i], a) {
          ReactLogCounted(c, s.world, s.jobs[i], s.counters, a);
        }
      case _ =>
    }
  }

  lemma ReactLogCounted(c: Config, w: World, j: Job, k: Counters, a: Action)
    requires w.Valid() && Ready(j, a)
    ensures var e := React(c, w, j, k, a);
            Counted(OkSigns, e.counters) == Counted(OkSigns, k) + One(e.signed.Some?)
  {
    match a
    case ReadHeight(reply) => GateLeaves(c, w, j, k, reply);
    case ReadTimestamp(reply) => TimestampLeaves(c, w, j.request.height, j.phase.attempts, k, reply);
    case ReadCommitment(i, reply) =>
      var (kind, packets) := Decoded(j.request).value;
      AnswerLeaves(k, j.phase.tasks[i].attempts, CommitmentAnswer(c, w, kind, j.request.height, packets[i], reply));
    case Gather =>
    case Sign(_) => assert SignLabel(true)[0] == 'o' && SignLabel(false)[0] == 'e';
    case Close(duration) =>
      RpcRecordedCounts(OkSigns, k, MethodOf(j.request), ResultCode(j.phase.outcome), duration);
  }

  lemma {:induction false} SignerShares(jobs: seq<Job>)
    ensures Total(OkSigns, jobs) + Total(ErrSigns, jobs) <= |jobs|
  {
    if jobs != [] {
      SignerShares(jobs[..|jobs| - 1]);
    }
  }

  /** All calls of the signer together. */
  lemma SignerCallsBounded(c: Config, w: World, steps: seq<Step>)
    requires w.Valid()
    ensures var s := Run(c, w, steps);
            Counted(OkSigns, s.counters) + Counted(ErrSigns, s.counters) <= |s.jobs|
  {
    RunBalances(OkSigns, c, w, steps);
    RunBalances(ErrSigns, c, w, steps);
    SignerShares(Run(c, w, steps).jobs);
  }

  /** The step is a call of the signer for request `i`. */
  predicate CallsSigner(s: Server, step: Step, i: nat) {
    step.Act? && step.job == i && i < |s.jobs| && step.action.Sign? && Ready(s.jobs[i], step.action)
  }

  /** The calls of the signer for request `i` along a run. */
  ghost function SignerCalls(c: Config, w: World, steps: seq<Step>, i: nat): nat
    requires w.Valid()
  {
    if steps == [] then 0
    else
      var n := |steps| - 1;
      SignerCalls(c, w, steps[..n], i) + One(CallsSigner(Run(c, w, steps[..n]), steps[n], i))
  }

  /** A request whose answer the signer had a part in: an attestation or the signer's failure. */
  predicate SignerAnswered(j: Job) {
    Attested(j) || AnsweredWith(j, SignerFailure)
  }

  /** Only the signer's step leads to such an answer, and nothing leads away from it. */
  lemma StepSigned(c: Config, s: Server, step: Step, i: nat)
    requires s.world.Valid() && i < |s.jobs| && Orderly(s.jobs[i])
    ensures var s' := Next(c, s, step);
            && i < |s'.jobs|
            && One(SignerAnswered(s'.jobs[i])) == One(SignerAnswered(s.jobs[i])) + One(CallsSigner(s, step, i))
  {
    if step.Act? && step.job == i && Ready(s.jobs[i], step.action) {
      ReactSigned(c, s.world, s.jobs[i], s.counters, step.action);
    }
  }

  lemma ReactSigned(c: Config, w: World, j: Job, k: Counters, a: Action)
    requires w.Valid() && Ready(j, a) && Orderly(j)
    ensures SignerAnswered(Reacted(j, a, React(c, w, j, k, a))) <==> SignerAnswered(j) || a.Sign?
    ensures a.Sign? ==> !SignerAnswered(j)
  {
    AttestedBySigning(c, w, j, k, a);
    match a
    case ReadHeight(reply) => GateLeaves(c, w, j, k, reply);
    case ReadTimestamp(reply) => TimestampLeaves(c, w, j.request.height, j.phase.attempts, k, reply);
    case Gather => GatherOutcome(j);
    case _ =>
  }

  lemma {:induction false} NoCallsBefore(c: Config, w: World, steps: seq<Step>, i: nat)
    requires w.Valid() && |Run(c, w, steps).jobs| <= i
    ensures SignerCalls(c, w, steps, i) == 0
  {
    if steps != [] {
      NoCallsBefore(c, w, steps[..|steps| - 1], i);
    }
  }

  lemma ArrivesUnsigned(c: Config, s: Server, step: Step, i: nat)
    requires s.world.Valid() && |s.jobs| <= i < |Next(c, s, step).jobs|
    ensures !SignerAnswered(Next(c, s, step).jobs[i]) && !CallsSigner(s, step, i)
  {
    match step
    case Arrive(r) =>
      if r.PacketRequest? {
        DecodeAllExact(r.packets);
      }
    case _ =>
  }

  /** In every run the signer is called for a request once if the answer is the signer's, and otherwise not at all. */
  lemma {:induction false} SignerCalledOnce(c: Config, w: World, steps: seq<Step>, i: nat)
    requires w.Valid() && i < |Run(c, w, steps).jobs|
    ensures SignerCalls(c, w, steps, i) == if SignerAnswered(Run(c, w, steps).jobs[i]) then 1 else 0
  {
    var n := |steps| - 1;
    var s := Run(c, w, steps[..n]);
    if i < |s.jobs| {
      SignerCalledOnce(c, w, steps[..n], i);
      RunBalances(OkSigns, c, w, steps[..n]);
      StepSigned(c, s, steps[n], i);
    } else {
      NoCallsBefore(c, w, steps[..n], i);
      ArrivesUnsigned(c, s, steps[n], i);
    }
  }

  /** Rejections at the gate are the requests recorded as FailedPrecondition, plus those about to be. */
  lemma RejectionsConserved(c: Config, w: World, steps: seq<Step>)
    requires w.Valid()
    ensures var s := Run(c, w, steps);
            && Counted(Rejections, s.counters) ==
               Counted(Requests(LatestHeight, FailedPrecondition), s.counters)
               + Counted(Requests(StateAttestation, FailedPrecondition), s.counters)
               + Counted(Requests(PacketAttestation, FailedPrecondition), s.counters) + InFlight(Rejections, s.jobs)
            && (Quiescent(s) ==> InFlight(Rejections, s.jobs) == 0)
  {
    var s := Run(c, w, steps);
    RunBalances(Rejections, c, w, steps);
    RunBalances(Requests(LatestHeight, FailedPrecondition), c, w, steps);
    RunBalances(Requests(StateAttestation, FailedPrecondition), c, w, steps);
    RunBalances(Requests(PacketAttestation, FailedPrecondition), c, w, steps);
    RejectionShares(s.jobs);
    if Quiescent(s) {
      NothingInFlight(Rejections, s.jobs);
    }
  }

  /** The codes the handlers answer with. */
  predicate Returned(code: Code) {
    code in {Success, FailedPrecondition, NotFound, InvalidArgument, Internal}
  }

  lemma {:induction false} OtherCodesUnshared(rpc: Method, code: Code, jobs: seq<Job>)
    requires !Returned(code)
    ensures Total(Requests(rpc, code), jobs) == 0
  {
    if jobs != [] {
      OtherCodesUnshared(rpc, code, jobs[..|jobs| - 1]);
    }
  }

  /** Each method's durations number its requests over all status codes: five of them, the others are never counted. */
  lemma DurationsConserved(c: Config, w: World, steps: seq<Step>, rpc: Method)
    requires w.Valid()
    ensures var k := Run(c, w, steps).counters;
            Counted(Durations(rpc), k) ==
            Counted(Requests(rpc, Success), k) + Counted(Requests(rpc, FailedPrecondition), k)
            + Counted(Requests(rpc, NotFound), k) + Counted(Requests(rpc, InvalidArgument), k)
            + Counted(Requests(rpc, Internal), k)
    ensures forall code :: !Returned(code) ==> Counted(Requests(rpc, code), Run(c, w, steps).counters) == 0
  {
    forall code | !Returned(code) ensures Counted(Requests(rpc, code), Run(c, w, steps).counters) == 0 {
      RunBalances(Requests(rpc, code), c, w, steps);
      OtherCodesUnshared(rpc, code, Run(c, w, steps).jobs);
    }
    RunBalances(Durations(rpc), c, w, steps);
    RunBalances(Requests(rpc, Success), c, w, steps);
    RunBalances(Requests(rpc, FailedPrecondition), c, w, steps);
    RunBalances(Requests(rpc, NotFound), c, w, steps);
    RunBalances(Requests(rpc, InvalidArgument), c, w, steps);
    RunBalances(Requests(rpc, Internal), c, w, steps);
    DurationShares(rpc, Run(c, w, steps).jobs);
  }

  /** Every packet request answered NotFound had a packet counted as not found. */
  lemma NotFoundIsCounted(c: Config, w: World, steps: seq<Step>)
    requires w.Valid()
    ensures var k := Run(c, w, steps).counters;
            Counted(Requests(PacketAttestation, NotFound), k) <= Counted(Failures(FailNotFound), k)
  {
    var s := Run(c, w, steps);
    RunBalances(Requests(PacketAttestation, NotFound), c, w, steps);
    RunBalances(Failures(FailNotFound), c, w, steps);
    forall i | 0 <= i < |s.jobs| ensures Typed(s.jobs[i]) {
      RunTyped(c, w, steps, i);
    }
    NotFoundShares(s.jobs);
  }

  /** A gathered batch: one ended task for each packet, and every packet in exactly one class. */
  lemma BatchPartition(c: Config, w: World, steps: seq<Step>, i: nat)
    requires w.Valid() && i < |Run(c, w, steps).jobs| && Run(c, w, steps).jobs[i].ended != []
    ensures var j := Run(c, w, steps).jobs[i];
            && j.request.PacketRequest? && |j.ended| == |j.request.packets|
            && |j.ended| == TallySuccesses(j.ended) + TallyAdapterErrors(j.ended)
                            + Share(Failures(FailNotFound), j) + Share(Failures(FailMismatch), j)
                            + Share(Failures(FailUnexpectedReceipt), j)
  {
    RunBalances(OkSigns, c, w, steps);
    EndedPartition(Run(c, w, steps).jobs[i]);
  }

  lemma EndedPartition(j: Job)
    requires Orderly(j) && j.ended != []
    ensures j.request.PacketRequest? && |j.ended| == |j.request.packets|
    ensures |j.ended| == TallySuccesses(j.ended) + TallyAdapterErrors(j.ended)
                         + Share(Failures(FailNotFound), j) + Share(Failures(FailMismatch), j)
                         + Share(Failures(FailUnexpectedReceipt), j)
  {
    Partition(j.ended);
  }
}
