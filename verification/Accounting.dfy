/** What the counters say about the requests, over every interleaving in which no request is cancelled. */
module Accounting {
  import opened Wrappers
  import opened Bytes
  import opened Types
  import opened World
  import opened Attestor
  import opened Labels
  import opened Metrics
  import opened Gate
  import opened Batch
  import opened PacketLists
  import opened Service
  import opened Answers
  import opened Retry
  import opened Retrying

  /** A quantity that is counted and can also be read off the requests. */
  datatype Law =
    | OkSigns
    | ErrSigns
    | Requests(rpc: Method, code: Code)
    | Durations(rpc: Method)
    | Rejections
    | Failures(kind: FailureKind)
    | Retries(operation: string)
    | Lags

  function Counted(law: Law, k: Counters): nat {
    match law
    case OkSigns => Count(k.signerSigns, SignLabel(true))
    case ErrSigns => Count(k.signerSigns, SignLabel(false))
    case Requests(rpc, code) => Count(k.rpcRequests, (MethodLabel(rpc), CodeLabel(code)))
    case Durations(rpc) => |Observations(k.rpcDurations, MethodLabel(rpc))|
    case Rejections => k.heightRejections
    case Failures(kind) => Count(k.commitmentFailures, FailureLabel(kind))
    case Retries(operation) => Count(k.retryFailures, operation)
    case Lags => |k.heightLags|
  }

  predicate AnsweredWith(j: Job, e: AttestorError) {
    (j.phase.Resolved? || j.phase.Closed?) && j.phase.outcome == Err(e)
  }

  /** An attestation request that has learned the finalized height. */
  predicate Measured(j: Job) {
    !j.request.HeightRequest? && Attempt(HeightQuery, Replied) in j.attempts
  }

  predicate ClosedAs(j: Job, rpc: Method, code: Code) {
    j.phase.Closed? && MethodOf(j.request) == rpc && ResultCode(j.phase.outcome) == code
  }

  /** The laws about RPC attempts, as opposed to those about how a request or a packet ends. */
  predicate OfReads(law: Law) {
    law.Retries? || law.Lags?
  }

  /** What one request contributes. */
  function Share(law: Law, j: Job): nat {
    match law
    case OkSigns => One(Attested(j))
    case ErrSigns => One(AnsweredWith(j, SignerFailure))
    case Requests(rpc, code) => One(ClosedAs(j, rpc, code))
    case Durations(rpc) => One(j.phase.Closed? && MethodOf(j.request) == rpc)
    case Rejections => One(AnsweredWith(j, HeightNotFinalized))
    case Failures(kind) => Tally(TasksOf(j), kind)
    case Retries(operation) => Exhaustions(j.attempts, operation)
    case Lags => One(Measured(j))
  }

  /** The packet tasks of a request, under way or gathered. */
  function TasksOf(j: Job): seq<Task> {
    if j.phase.AtPackets? then j.phase.tasks else j.ended
  }

  function Total(law: Law, jobs: seq<Job>): nat {
    if jobs == [] then 0 else Total(law, jobs[..|jobs| - 1]) + Share(law, jobs[|jobs| - 1])
  }

  lemma {:induction false} TotalUpdate(law: Law, jobs: seq<Job>, i: nat, j: Job)
    requires i < |jobs|
    ensures Total(law, jobs[i := j]) == Total(law, jobs) - Share(law, jobs[i]) + Share(law, j)
  {
    var n := |jobs| - 1;
    if i == n {
      assert jobs[i := j][..n] == jobs[..n];
    } else {
      TotalUpdate(law, jobs[..n], i, j);
      assert jobs[i := j][..n] == jobs[..n][i := j];
    }
  }

  lemma RpcLabelInjective(m: Method, c: Code, n: Method, d: Code)
    ensures (MethodLabel(m), CodeLabel(c)) == (MethodLabel(n), CodeLabel(d)) <==> m == n && c == d
  {
    MethodLabelInjective(m, n);
    if CodeLabel(c) == CodeLabel(d) {
      CodeLabelInjective(c, d);
    }
  }

  predicate AllJudged(tasks: seq<Task>) {
    forall i :: 0 <= i < |tasks| && tasks[i].Finished? ==> Judged(tasks[i].verdict)
  }

  /** Tasks come one for each packet; they are gathered when all have ended, in verdicts the service can reach. */
  predicate Orderly(j: Job) {
    && AllJudged(TasksOf(j))
    && (TasksOf(j) == [] || (j.request.PacketRequest? && |TasksOf(j)| == |j.request.packets|))
    && (match j.phase
        case AtGate(_) | AtTimestamp(_) => j.ended == []
        case AtPackets(_) => j.ended == []
        case _ => AllFinished(j.ended))
  }

  /** A law is kept when the counter rises by what the request's share does. */
  predicate Conserves(law: Law, k: Counters, j: Job, k': Counters, j': Job) {
    Counted(law, k') + Share(law, j) == Counted(law, k) + Share(law, j')
  }

  lemma GateFailures(kind: FailureKind, c: Config, w: World, j: Job, k: Counters, reply: Reply)
    requires w.Valid() && j.phase.AtGate? && j.ended == []
    ensures var (phase, k') := GateEffect(c, w, j.request, j.phase.attempts, k, reply);
            k'.commitmentFailures == k.commitmentFailures && Tally(TasksOf(j.(phase := phase)), kind) == 0
  {
    var (phase, k') := GateEffect(c, w, j.request, j.phase.attempts, k, reply);
    if phase.AtPackets? {
      TallyFresh(phase.tasks, kind);
    }
  }

  lemma GateRejections(c: Config, w: World, j: Job, k: Counters, reply: Reply)
    requires w.Valid() && j.phase.AtGate?
    ensures var (phase, k') := GateEffect(c, w, j.request, j.phase.attempts, k, reply);
            k'.heightRejections == k.heightRejections + One(AnsweredWith(j.(phase := phase), HeightNotFinalized))
  {
  }

  /** The counters of signatures and of requests are as they were. */
  predicate SameBooks(k: Counters, k': Counters) {
    k'.rpcRequests == k.rpcRequests && k'.rpcDurations == k.rpcDurations && k'.signerSigns == k.signerSigns
  }

  lemma GateCountedLeaves(k: Counters, f: nat, h: nat)
    ensures SameBooks(k, HeightSet(k, f)) && SameBooks(k, GateCounted(k, Ok(f), h))
  {
  }

  lemma GateLeaves(c: Config, w: World, j: Job, k: Counters, reply: Reply)
    requires w.Valid() && j.phase.AtGate?
    ensures var (phase, k') := GateEffect(c, w, j.request, j.phase.attempts, k, reply);
            && SameBooks(k, k') && !phase.Closed?
            && !Attested(j.(phase := phase)) && !AnsweredWith(j.(phase := phase), SignerFailure)
  {
    var f := LastHeightOf(c, w, reply);
    match j.request
    case HeightRequest => GateCountedLeaves(k, f, 0);
    case StateRequest(h) => GateCountedLeaves(k, f, h);
    case PacketRequest(_, h, _) => GateCountedLeaves(k, f, h);
  }

  lemma GateKeeps(law: Law, c: Config, w: World, j: Job, k: Counters, reply: Reply)
    requires w.Valid() && j.phase.AtGate? && j.ended == [] && !OfReads(law)
    ensures var (phase, k') := GateEffect(c, w, j.request, j.phase.attempts, k, reply);
            Conserves(law, k, j, k', j.(phase := phase))
  {
    match law
    case Failures(kind) => GateFailures(kind, c, w, j, k, reply);
    case Rejections => GateRejections(c, w, j, k, reply);
    case _ => GateLeaves(c, w, j, k, reply);
  }

  lemma TimestampLeaves(c: Config, w: World, h: u64, attempts: nat, k: Counters, reply: Reply)
    ensures var (phase, k') := TimestampEffect(c, w, h, attempts, k, reply);
            && SameBooks(k, k')
            && k'.heightRejections == k.heightRejections && k'.commitmentFailures == k.commitmentFailures
            && (|| phase.AtTimestamp? || phase.AtSigner?
                || phase == Fail(BlockNotFinalized) || phase == Fail(RetrievalError))
  {
  }

  lemma TimestampKeeps(law: Law, c: Config, w: World, j: Job, k: Counters, reply: Reply)
    requires w.Valid() && Ready(j, ReadTimestamp(reply)) && !OfReads(law)
    ensures var e := React(c, w, j, k, ReadTimestamp(reply));
            Conserves(law, k, j, e.counters, Reacted(j, ReadTimestamp(reply), e))
  {
    TimestampLeaves(c, w, j.request.height, j.phase.attempts, k, reply);
  }

  lemma SignKeeps(law: Law, c: Config, w: World, j: Job, k: Counters, ok: bool)
    requires w.Valid() && Ready(j, Sign(ok)) && !OfReads(law)
    ensures var e := React(c, w, j, k, Sign(ok));
            Conserves(law, k, j, e.counters, Reacted(j, Sign(ok), e))
  {
    assert SignLabel(true)[0] == 'o' && SignLabel(false)[0] == 'e';
  }

  lemma AnswerLeaves(k: Counters, attempts: nat, answer: Answer)
    ensures var k' := AnswerCounted(k, attempts, answer);
            SameBooks(k, k') && k'.heightRejections == k.heightRejections
  {
  }

  lemma AnswerFailures(kind: FailureKind, k: Counters, tasks: seq<Task>, i: nat, answer: Answer)
    requires i < |tasks| && tasks[i].Running?
    ensures Count(AnswerCounted(k, tasks[i].attempts, answer).commitmentFailures, FailureLabel(kind))
            + Tally(tasks, kind) ==
            Count(k.commitmentFailures, FailureLabel(kind)) + Tally(tasks[i := Advance(tasks[i], answer)], kind)
  {
    TallyUpdate(tasks, i, Advance(tasks[i], answer), kind);
    if answer.Answered? {
      VerdictCountedByKind(k, answer.verdict, kind);
    }
  }

  /** An answer to one packet's read moves what the request contributes by what it counts. */
  lemma AnswerKeeps(law: Law, k: Counters, j: Job, j': Job, i: nat, answer: Answer)
    requires !OfReads(law) && j.phase.AtPackets? && i < |j.phase.tasks| && j.phase.tasks[i].Running?
    requires j'.phase == AtPackets(j.phase.tasks[i := Advance(j.phase.tasks[i], answer)])
    ensures Conserves(law, k, j, AnswerCounted(k, j.phase.tasks[i].attempts, answer), j')
  {
    AnswerLeaves(k, j.phase.tasks[i].attempts, answer);
    if law.Failures? {
      AnswerFailures(law.kind, k, j.phase.tasks, i, answer);
    }
  }

  lemma ReadCommitmentKeeps(law: Law, c: Config, w: World, j: Job, k: Counters, i: nat, reply: Reply)
    requires w.Valid() && Ready(j, ReadCommitment(i, reply)) && !OfReads(law)
    ensures var e := React(c, w, j, k, ReadCommitment(i, reply));
            Conserves(law, k, j, e.counters, Reacted(j, ReadCommitment(i, reply), e))
  {
    var (kind, packets) := Decoded(j.request).value;
    var answer := CommitmentAnswer(c, w, kind, j.request.height, packets[i], reply);
    var e := React(c, w, j, k, ReadCommitment(i, reply));
    AnswerKeeps(law, k, j, Reacted(j, ReadCommitment(i, reply), e), i, answer);
  }

  /** Recording under some labels counts under those and no other. */
  lemma RecordedUnder(k: Counters, rpc: string, code: string, duration: nat, l: string, d: string)
    ensures var k' := RpcRecorded(k, rpc, code, duration);
            && Count(k'.rpcRequests, (l, d)) == Count(k.rpcRequests, (l, d)) + (if (l, d) == (rpc, code) then 1 else 0)
            && |Observations(k'.rpcDurations, l)| == |Observations(k.rpcDurations, l)| + if l == rpc then 1 else 0
  {
  }

  lemma RpcRecordedCounts(law: Law, k: Counters, rpc: Method, code: Code, duration: nat)
    ensures Counted(law, RpcRecorded(k, MethodLabel(rpc), CodeLabel(code), duration)) ==
            Counted(law, k) + One(law == Requests(rpc, code) || law == Durations(rpc))
  {
    match law
    case Requests(m, d) =>
      RecordedUnder(k, MethodLabel(rpc), CodeLabel(code), duration, MethodLabel(m), CodeLabel(d));
      RpcLabelInjective(m, d, rpc, code);
    case Durations(m) =>
      RecordedUnder(k, MethodLabel(rpc), CodeLabel(code), duration, MethodLabel(m), "");
      MethodLabelInjective(m, rpc);
    case _ =>
  }

  lemma CloseKeeps(law: Law, c: Config, w: World, j: Job, k: Counters, duration: nat)
    requires w.Valid() && Ready(j, Close(duration)) && !OfReads(law)
    ensures var e := React(c, w, j, k, Close(duration));
            Conserves(law, k, j, e.counters, Reacted(j, Close(duration), e))
  {
    RpcRecordedCounts(law, k, MethodOf(j.request), ResultCode(j.phase.outcome), duration);
  }

  lemma GatherKeeps(law: Law, c: Config, w: World, j: Job, k: Counters)
    requires w.Valid() && Ready(j, Gather) && Orderly(j) && !OfReads(law)
    ensures var e := React(c, w, j, k, Gather);
            Conserves(law, k, j, e.counters, Reacted(j, Gather, e))
  {
    GatherOutcome(j);
  }

  /** A gathered batch goes on to the signer, or fails with an error of one of its packets. */
  lemma GatherOutcome(j: Job)
    requires Ready(j, Gather) && Orderly(j)
    ensures var phase := GatherEffect(j.request, j.phase.tasks);
            phase.AtSigner? || (phase.Resolved? && phase.outcome.Err? && Judged(Err(phase.outcome.error)))
  {
    var verdicts := Verdicts(j.phase.tasks);
    CollectMeaning(verdicts);
    if Collect(verdicts).Err? {
      var i: nat :| FirstError(verdicts, i, Collect(verdicts).error);
      assert Judged(j.phase.tasks[i].verdict);
    }
  }

  // What reading from the node counts.

  predicate GivesUp(a: Attempt, tried: nat) {
    a.ending == NoReply && tried + 1 == MAX_ATTEMPTS
  }

  /** An attempt counts a retry failure if it is the third without a reply, and a lag if it tells the height. */
  ghost predicate CountsAttempt(k: Counters, k': Counters, r: Request, tried: nat, a: Attempt) {
    && (forall operation :: Count(k'.retryFailures, operation) ==
                            Count(k.retryFailures, operation)
                            + if GivesUp(a, tried) && operation == OperationOf(a.query) then 1 else 0)
    && |k'.heightLags| == |k.heightLags| + if !r.HeightRequest? && a == Attempt(HeightQuery, Replied) then 1 else 0
  }

  lemma RetriedCounts(again: Phase, r: Request, tried: nat, q: Query, k: Counters)
    requires tried < MAX_ATTEMPTS
    ensures CountsAttempt(k, Retried(again, tried, OperationOf(q), k).1, r, tried, Attempt(q, NoReply))
  {
  }

  lemma SameCounts(k: Counters, r: Request, tried: nat, a: Attempt)
    requires a.ending != NoReply && a != Attempt(HeightQuery, Replied)
    ensures CountsAttempt(k, k, r, tried, a)
  {
    assert !GivesUp(a, tried);
  }

  lemma HeightCounts(k: Counters, r: Request, tried: nat, f: nat)
    ensures var k' := if r.HeightRequest? then HeightSet(k, f) else GateCounted(k, Ok(f), r.height);
            CountsAttempt(k, k', r, tried, Attempt(HeightQuery, Replied))
  {
  }

  lemma GateCounts(c: Config, w: World, r: Request, tried: nat, k: Counters, reply: Reply)
    requires w.Valid() && tried < MAX_ATTEMPTS
    ensures CountsAttempt(k, GateEffect(c, w, r, tried, k, reply).1, r, tried, Attempt(HeightQuery, EndingOf(c, reply)))
  {
    match EndingOf(c, reply)
    case NoReply => RetriedCounts(AtGate(tried + 1), r, tried, HeightQuery, k);
    case NoBlock => SameCounts(k, r, tried, Attempt(HeightQuery, NoBlock));
    case Replied => HeightCounts(k, r, tried, LastHeightOf(c, w, reply));
  }

  lemma TimestampCounts(c: Config, w: World, r: Request, h: u64, tried: nat, k: Counters, reply: Reply)
    requires tried < MAX_ATTEMPTS
    ensures CountsAttempt(k, TimestampEffect(c, w, h, tried, k, reply).1, r, tried,
                          Attempt(TimestampQuery, EndingOf(c, BlockReply(w, h, reply))))
  {
    var ending := EndingOf(c, BlockReply(w, h, reply));
    match ending
    case NoReply => RetriedCounts(AtTimestamp(tried + 1), r, tried, TimestampQuery, k);
    case _ => SameCounts(k, r, tried, Attempt(TimestampQuery, ending));
  }

  lemma AnswerCounts(k: Counters, r: Request, tried: nat, i: nat, answer: Answer)
    requires tried < MAX_ATTEMPTS
    ensures CountsAttempt(k, AnswerCounted(k, tried, answer), r, tried,
                          Attempt(CommitmentQuery(i), if answer.Failed? then NoReply else Replied))
  {
  }

  /** A law about attempts is kept by an attempt that counts as it should. */
  lemma AttemptKept(law: Law, k: Counters, j: Job, k': Counters, j': Job, tried: nat, a: Attempt)
    requires OfReads(law) && Trying(j.attempts, a.query, tried) && CountsAttempt(k, k', j.request, tried, a)
    requires j'.request == j.request && j'.attempts == j.attempts + [a]
    ensures Conserves(law, k, j, k', j')
  {
    match law
    case Retries(operation) => ExhaustionsAppend(j.attempts, a, operation);
    case Lags =>
      assert j'.attempts[|j.attempts|] == a;
      assert a.query == HeightQuery ==> Attempt(HeightQuery, Replied) !in j.attempts;
  }

  lemma TimestampTriesKept(law: Law, c: Config, w: World, j: Job, k: Counters, reply: Reply)
    requires w.Valid() && Ready(j, ReadTimestamp(reply)) && Tracked(j) && OfReads(law)
    ensures var e := React(c, w, j, k, ReadTimestamp(reply));
            Conserves(law, k, j, e.counters, Reacted(j, ReadTimestamp(reply), e))
  {
    var e, h := React(c, w, j, k, ReadTimestamp(reply)), j.request.height;
    if e.attempts == [] {
      assert j.attempts + [] == j.attempts;
    } else {
      TimestampCounts(c, w, j.request, h, j.phase.attempts, k, reply);
      AttemptKept(law, k, j, e.counters, Reacted(j, ReadTimestamp(reply), e), j.phase.attempts,
                  Attempt(TimestampQuery, EndingOf(c, BlockReply(w, h, reply))));
    }
  }

  lemma CommitmentTriesKept(law: Law, c: Config, w: World, j: Job, k: Counters, i: nat, reply: Reply)
    requires w.Valid() && Ready(j, ReadCommitment(i, reply)) && Tracked(j) && OfReads(law)
    ensures var e := React(c, w, j, k, ReadCommitment(i, reply));
            Conserves(law, k, j, e.counters, Reacted(j, ReadCommitment(i, reply), e))
  {
    var e := React(c, w, j, k, ReadCommitment(i, reply));
    var (kind, packets) := Decoded(j.request).value;
    var answer := CommitmentAnswer(c, w, kind, j.request.height, packets[i], reply);
    var tried := j.phase.tasks[i].attempts;
    AnswerCounts(k, j.request, tried, i, answer);
    AttemptKept(law, k, j, e.counters, Reacted(j, ReadCommitment(i, reply), e), tried,
                Attempt(CommitmentQuery(i), if answer.Failed? then NoReply else Replied));
  }

  lemma GateTriesKept(law: Law, c: Config, w: World, j: Job, k: Counters, reply: Reply)
    requires w.Valid() && Ready(j, ReadHeight(reply)) && Tracked(j) && OfReads(law)
    ensures var e := React(c, w, j, k, ReadHeight(reply));
            Conserves(law, k, j, e.counters, Reacted(j, ReadHeight(reply), e))
  {
    var e := React(c, w, j, k, ReadHeight(reply));
    GateCounts(c, w, j.request, j.phase.attempts, k, reply);
    AttemptKept(law, k, j, e.counters, Reacted(j, ReadHeight(reply), e), j.phase.attempts,
                Attempt(HeightQuery, EndingOf(c, reply)));
  }

  lemma TriesKept(law: Law, c: Config, w: World, j: Job, k: Counters, a: Action)
    requires w.Valid() && Ready(j, a) && Tracked(j) && OfReads(law)
    ensures var e := React(c, w, j, k, a);
            Conserves(law, k, j, e.counters, Reacted(j, a, e))
  {
    match a
    case ReadHeight(reply) => GateTriesKept(law, c, w, j, k, reply);
    case ReadTimestamp(reply) => TimestampTriesKept(law, c, w, j, k, reply);
    case ReadCommitment(i, reply) => CommitmentTriesKept(law, c, w, j, k, i, reply);
    case _ => assert j.attempts + [] == j.attempts;
  }

  lemma ReactOrderly(c: Config, w: World, j: Job, k: Counters, a: Action)
    requires w.Valid() && Ready(j, a) && Orderly(j)
    ensures Orderly(Reacted(j, a, React(c, w, j, k, a)))
  {
  }

  /** No action moves a counter without the request's share moving with it. */
  lemma ReactKeeps(law: Law, c: Config, w: World, j: Job, k: Counters, a: Action)
    requires w.Valid() && Ready(j, a) && Orderly(j) && Tracked(j)
    ensures var e := React(c, w, j, k, a);
            Conserves(law, k, j, e.counters, Reacted(j, a, e))
  {
    if OfReads(law) {
      TriesKept(law, c, w, j, k, a);
    } else {
      OutcomesKept(law, c, w, j, k, a);
    }
  }

  lemma OutcomesKept(law: Law, c: Config, w: World, j: Job, k: Counters, a: Action)
    requires w.Valid() && Ready(j, a) && Orderly(j) && !OfReads(law)
    ensures var e := React(c, w, j, k, a);
            Conserves(law, k, j, e.counters, Reacted(j, a, e))
  {
    match a
    case ReadHeight(reply) => GateKeeps(law, c, w, j, k, reply);
    case ReadTimestamp(reply) => TimestampKeeps(law, c, w, j, k, reply);
    case ReadCommitment(i, reply) => ReadCommitmentKeeps(law, c, w, j, k, i, reply);
    case Gather => GatherKeeps(law, c, w, j, k);
    case Sign(ok) => SignKeeps(law, c, w, j, k, ok);
    case Close(duration) => CloseKeeps(law, c, w, j, k, duration);
  }

  ghost predicate Balanced(law: Law, s: Server) {
    && Counted(law, s.counters) == Total(law, s.jobs)
    && forall i :: 0 <= i < |s.jobs| ==> Orderly(s.jobs[i])
  }

  lemma ActBalances(law: Law, c: Config, s: Server, i: nat, a: Action)
    requires s.world.Valid() && Balanced(law, s) && i < |s.jobs| && Ready(s.jobs[i], a) && Tracked(s.jobs[i])
    ensures Balanced(law, Acted(c, s, i, a))
  {
    var e := React(c, s.world, s.jobs[i], s.counters, a);
    var j' := Reacted(s.jobs[i], a, e);
    ReactKeeps(law, c, s.world, s.jobs[i], s.counters, a);
    ReactOrderly(c, s.world, s.jobs[i], s.counters, a);
    TotalUpdate(law, s.jobs, i, j');
    assert Acted(c, s, i, a).jobs == s.jobs[i := j'];
  }

  lemma ArriveBalances(law: Law, s: Server, r: Request)
    requires Balanced(law, s)
    ensures Balanced(law, s.(jobs := s.jobs + [Arrived(r)]))
  {
    assert (s.jobs + [Arrived(r)])[..|s.jobs|] == s.jobs;
    ArrivedShares(law, r);
  }

  lemma NextBalances(law: Law, c: Config, s: Server, step: Step)
    requires s.world.Valid() && Balanced(law, s) && forall i :: 0 <= i < |s.jobs| ==> Tracked(s.jobs[i])
    ensures Balanced(law, Next(c, s, step))
  {
    match step
    case ChainStep(_) =>
    case Arrive(r) => ArriveBalances(law, s, r);
    case Act(i, a) =>
      if i < |s.jobs| && Ready(s.jobs[i], a) {
        ActBalances(law, c, s, i, a);
      }
  }

  lemma ArrivedShares(law: Law, r: Request)
    ensures Share(law, Arrived(r)) == 0 && Orderly(Arrived(r))
  {
    if r.PacketRequest? {
      DecodeAllExact(r.packets);
    }
  }

  /** In every run every law balances. */
  lemma {:induction false} RunBalances(law: Law, c: Config, w: World, steps: seq<Step>)
    requires w.Valid()
    ensures Balanced(law, Run(c, w, steps))
  {
    if steps != [] {
      var s := Run(c, w, steps[..|steps| - 1]);
      RunBalances(law, c, w, steps[..|steps| - 1]);
      forall i | 0 <= i < |s.jobs| ensures Tracked(s.jobs[i]) {
        RunTracked(c, w, steps[..|steps| - 1], i);
      }
      NextBalances(law, c, Run(c, w, steps[..|steps| - 1]), steps[|steps| - 1]);
    }
  }
}
