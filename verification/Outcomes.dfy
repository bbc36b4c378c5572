/** Every answer explained: what a request is answered, from its RPC attempts and the chain, in every run. */
module Outcomes {
  import opened Wrappers
  import opened Bytes
  import opened Types
  import opened World
  import opened Attestor
  import opened Metrics
  import opened Batch
  import opened PacketLists
  import opened Service
  import opened Soundness
  import opened Retrying
  import opened Runs
  import opened Replies

  // The RPC attempts of a request.

  /** The query was tried three times, always without a reply. */
  ghost predicate GaveUp(attempts: seq<Attempt>, q: Query) {
    Made(attempts, q) == 3 && Unanswered(attempts, q)
  }

  predicate Got(attempts: seq<Attempt>, q: Query, ending: Ending) {
    Attempt(q, ending) in attempts
  }

  /** Nothing was asked but the height. */
  predicate OnlyHeight(attempts: seq<Attempt>) {
    forall a :: a in attempts ==> a.query == HeightQuery
  }

  /** A query that fails fails with these errors, for these reasons. */
  ghost predicate FailedRead(attempts: seq<Attempt>, q: Query, o: Outcome) {
    || (GaveUp(attempts, q) && o == Err(AdapterFailure(RetrievalError)))
    || (Got(attempts, q, NoBlock) && o == Err(AdapterFailure(BlockNotFinalized)))
  }

  // The answers.

  /** The signer has the last word: its failure, or the response with its signature. */
  ghost predicate FromSigner(c: Config, m: Claim, o: Outcome) {
    o == Err(SignerFailure) || o == Ok(ResponseTo(c, m))
  }

  ghost predicate HeightExplained(c: Config, w: World, j: Job, o: Outcome)
    requires |w.blocks| > 0
  {
    || FailedRead(j.attempts, HeightQuery, o)
    || (&& Got(j.attempts, HeightQuery, Replied)
        && o.Ok? && o.value.HeightResponse? && o.value.height <= Finalized(c.chain, w))
  }

  /** Refused at the gate without asking further, or let through to `h`, which is finalized. */
  ghost predicate Refused(j: Job, o: Outcome) {
    Got(j.attempts, HeightQuery, Replied) && OnlyHeight(j.attempts) && o == Err(HeightNotFinalized)
  }

  ghost predicate LetThrough(c: Config, w: World, attempts: seq<Attempt>, h: nat)
    requires |w.blocks| > 0
  {
    Got(attempts, HeightQuery, Replied) && h <= Finalized(c.chain, w) && h < |w.blocks|
  }

  predicate BeyondCosmos(c: Config, h: nat) {
    c.chain == Cosmos && h > I64_MAX
  }

  /** The time of the block is signed, unless it was not to be had or is no u64. */
  ghost predicate TimeExplained(c: Config, w: World, attempts: seq<Attempt>, h: u64, o: Outcome)
    requires h < |w.blocks|
  {
    if BeyondCosmos(c, h) then OnlyHeight(attempts) && o == Err(AdapterFailure(InvalidHeight))
    else
      || FailedRead(attempts, TimestampQuery, o)
      || (&& Got(attempts, TimestampQuery, Replied)
          && var t := w.blocks[h].time;
             if 0 <= t < U64_SIZE then FromSigner(c, StateClaim(h, t), o) else o == Err(AdapterFailure(RetrievalError)))
  }

  ghost predicate StateExplained(c: Config, w: World, j: Job, h: u64, o: Outcome)
    requires |w.blocks| > 0
  {
    || FailedRead(j.attempts, HeightQuery, o)
    || Refused(j, o)
    || (LetThrough(c, w, j.attempts, h) && TimeExplained(c, w, j.attempts, h, o))
  }

  /** A packet's task gave up, or ended with what the store gives at a height in range. */
  ghost predicate TaskExplained(c: Config, w: World, attempts: seq<Attempt>, r: Request, i: nat, t: Task)
    requires |w.blocks| > 0 && r.PacketRequest? && Decoded(r).Ok? && i < |Decoded(r).value.1|
  {
    var (kind, packets) := Decoded(r).value;
    t.Finished? ==>
      || (GaveUp(attempts, CommitmentQuery(i)) && t == Finished(0, Err(AdapterFailure(RetrievalError))))
      || (&& Got(attempts, CommitmentQuery(i), Replied)
          && t.readAt < |w.blocks| && ReadInRange(c, w, r.height, t.readAt)
          && t.verdict ==
             Attest(c.crypto, c.chain, c.discriminator, StoreAt(c, w, t.readAt), kind, packets[i], r.height))
  }

  ghost predicate TasksExplained(c: Config, w: World, attempts: seq<Attempt>, r: Request, tasks: seq<Task>)
    requires |w.blocks| > 0 && r.PacketRequest? && Decoded(r).Ok?
  {
    && |tasks| == |Decoded(r).value.1|
    && forall i :: 0 <= i < |tasks| ==> TaskExplained(c, w, attempts, r, i, tasks[i])
  }

  /** The first error of the batch, or all its items in order, signed. */
  ghost predicate BatchExplained(c: Config, w: World, j: Job, o: Outcome)
    requires |w.blocks| > 0 && j.request.PacketRequest? && Decoded(j.request).Ok?
  {
    var (kind, packets) := Decoded(j.request).value;
    && TasksExplained(c, w, j.attempts, j.request, j.ended) && AllFinished(j.ended)
    && var verdicts := Verdicts(j.ended);
       || (o.Err? && exists x :: FirstError(verdicts, x, o.error))
       || (exists items :: AllOk(verdicts, items)
             && FromSigner(c, PacketClaim(kind, j.request.height, packets, items, ReadHeights(j.ended)), o))
  }

  ghost predicate PacketsExplained(c: Config, w: World, j: Job, o: Outcome)
    requires |w.blocks| > 0 && j.request.PacketRequest?
  {
    match Decoded(j.request)
    case Err(e) => j.attempts == [] && o == Err(e)
    case Ok(_) =>
      || FailedRead(j.attempts, HeightQuery, o)
      || Refused(j, o)
      || (LetThrough(c, w, j.attempts, j.request.height) && BatchExplained(c, w, j, o))
  }

  ghost predicate Explained(c: Config, w: World, j: Job, o: Outcome)
    requires |w.blocks| > 0
  {
    match j.request
    case HeightRequest => HeightExplained(c, w, j, o)
    case StateRequest(h) => StateExplained(c, w, j, h, o)
    case PacketRequest(_, _, _) => PacketsExplained(c, w, j, o)
  }

  // On the way there.

  ghost predicate ClaimExplained(c: Config, w: World, j: Job, m: Claim)
    requires |w.blocks| > 0
  {
    match j.request
    case HeightRequest => false
    case StateRequest(h) =>
      && LetThrough(c, w, j.attempts, h) && !BeyondCosmos(c, h)
      && Got(j.attempts, TimestampQuery, Replied)
      && 0 <= w.blocks[h].time < U64_SIZE && m == StateClaim(h, w.blocks[h].time)
    case PacketRequest(_, h, _) =>
      && Decoded(j.request).Ok? && LetThrough(c, w, j.attempts, h)
      && TasksExplained(c, w, j.attempts, j.request, j.ended) && AllFinished(j.ended)
      && m.PacketClaim? && AllOk(Verdicts(j.ended), m.items)
      && m == PacketClaim(Decoded(j.request).value.0, h, Decoded(j.request).value.1, m.items, ReadHeights(j.ended))
  }

  ghost predicate OnTheWay(c: Config, w: World, j: Job)
    requires |w.blocks| > 0
  {
    match j.phase
    case AtGate(_) => OnlyHeight(j.attempts) && (j.request.PacketRequest? ==> Decoded(j.request).Ok?)
    case AtTimestamp(_) =>
      && j.request.StateRequest? && LetThrough(c, w, j.attempts, j.request.height)
      && (BeyondCosmos(c, j.request.height) ==> OnlyHeight(j.attempts))
    case AtPackets(tasks) =>
      && j.request.PacketRequest? && Decoded(j.request).Ok? && LetThrough(c, w, j.attempts, j.request.height)
      && TasksExplained(c, w, j.attempts, j.request, tasks)
    case AtSigner(m) => ClaimExplained(c, w, j, m)
    case Resolved(o) => Explained(c, w, j, o)
    case Closed(o) => Explained(c, w, j, o)
  }

  // The chain moves on.

  lemma LetThroughLater(c: Config, w: World, w': World, attempts: seq<Attempt>, h: nat)
    requires Later(c, w, w') && LetThrough(c, w, attempts, h)
    ensures LetThrough(c, w', attempts, h) && w'.blocks[h] == w.blocks[h]
  {
    StoreKept(c, w, w', Finalized(c.chain, w), h);
  }

  lemma TasksLater(c: Config, w: World, w': World, attempts: seq<Attempt>, r: Request, tasks: seq<Task>)
    requires Later(c, w, w') && r.PacketRequest? && Decoded(r).Ok? && TasksExplained(c, w, attempts, r, tasks)
    ensures TasksExplained(c, w', attempts, r, tasks)
  {
    forall i | 0 <= i < |tasks| ensures TaskExplained(c, w', attempts, r, i, tasks[i]) {
      assert TaskExplained(c, w, attempts, r, i, tasks[i]);
      if tasks[i].Finished? && tasks[i].readAt < |w.blocks| && ReadInRange(c, w, r.height, tasks[i].readAt) {
        StoreKept(c, w, w', Finalized(c.chain, w), tasks[i].readAt);
      }
    }
  }

  lemma ExplainedLater(c: Config, w: World, w': World, j: Job, o: Outcome)
    requires Later(c, w, w') && Explained(c, w, j, o)
    ensures Explained(c, w', j, o)
  {
    match j.request
    case HeightRequest =>
    case StateRequest(h) =>
      if LetThrough(c, w, j.attempts, h) {
        LetThroughLater(c, w, w', j.attempts, h);
      }
    case PacketRequest(_, h, _) =>
      if Decoded(j.request).Ok? && LetThrough(c, w, j.attempts, h) && BatchExplained(c, w, j, o) {
        LetThroughLater(c, w, w', j.attempts, h);
        TasksLater(c, w, w', j.attempts, j.request, j.ended);
      }
  }

  lemma ClaimLater(c: Config, w: World, w': World, j: Job, m: Claim)
    requires Later(c, w, w') && ClaimExplained(c, w, j, m)
    ensures ClaimExplained(c, w', j, m)
  {
    LetThroughLater(c, w, w', j.attempts, j.request.height);
    if j.request.PacketRequest? {
      TasksLater(c, w, w', j.attempts, j.request, j.ended);
    }
  }

  lemma OnTheWayLater(c: Config, w: World, w': World, j: Job)
    requires Later(c, w, w') && OnTheWay(c, w, j)
    ensures OnTheWay(c, w', j)
  {
    match j.phase
    case AtGate(_) =>
    case AtTimestamp(_) => LetThroughLater(c, w, w', j.attempts, j.request.height);
    case AtPackets(tasks) =>
      LetThroughLater(c, w, w', j.attempts, j.request.height);
      TasksLater(c, w, w', j.attempts, j.request, tasks);
    case AtSigner(m) => ClaimLater(c, w, w', j, m);
    case Resolved(o) => ExplainedLater(c, w, w', j, o);
    case Closed(o) => ExplainedLater(c, w, w', j, o);
  }

  // The request moves on.

  /** The third attempt without a reply is the one that gives up. */
  lemma GivesUp(attempts: seq<Attempt>, q: Query)
    requires Trying(attempts, q, 2)
    ensures GaveUp(attempts + [Attempt(q, NoReply)], q)
  {
    MadeAppend(attempts, Attempt(q, NoReply), q);
  }

  lemma GotAppend(attempts: seq<Attempt>, a: Attempt)
    ensures Got(attempts + [a], a.query, a.ending)
    ensures forall q, ending :: Got(attempts, q, ending) ==> Got(attempts + [a], q, ending)
    ensures forall q :: q != a.query && GaveUp(attempts, q) ==> GaveUp(attempts + [a], q)
    ensures OnlyHeight(attempts) && a.query == HeightQuery ==> OnlyHeight(attempts + [a])
  {
    assert (attempts + [a])[|attempts|] == a;
    forall q {
      MadeAppend(attempts, a, q);
    }
  }

  lemma GateOnTheWay(c: Config, w: World, j: Job, k: Counters, reply: Reply)
    requires w.Valid() && Ready(j, ReadHeight(reply)) && Tracked(j) && OnTheWay(c, w, j)
    ensures OnTheWay(c, w, Reacted(j, ReadHeight(reply), React(c, w, j, k, ReadHeight(reply))))
  {
    var ending := EndingOf(c, reply);
    FinalizedExists(c.chain, w);
    GotAppend(j.attempts, Attempt(HeightQuery, ending));
    match ending
    case NoReply => GateRetried(c, w, j, k, reply);
    case NoBlock =>
    case Replied => GatePassed(c, w, j, k, reply);
  }

  lemma GateRetried(c: Config, w: World, j: Job, k: Counters, reply: Reply)
    requires w.Valid() && Ready(j, ReadHeight(reply)) && Tracked(j) && OnTheWay(c, w, j)
    requires EndingOf(c, reply) == NoReply
    ensures OnTheWay(c, w, Reacted(j, ReadHeight(reply), React(c, w, j, k, ReadHeight(reply))))
  {
    GotAppend(j.attempts, Attempt(HeightQuery, NoReply));
    if j.phase.attempts == 2 {
      GivesUp(j.attempts, HeightQuery);
    }
  }

  lemma GatePassed(c: Config, w: World, j: Job, k: Counters, reply: Reply)
    requires w.Valid() && Ready(j, ReadHeight(reply)) && OnTheWay(c, w, j) && EndingOf(c, reply) == Replied
    ensures OnTheWay(c, w, Reacted(j, ReadHeight(reply), React(c, w, j, k, ReadHeight(reply))))
  {
    GotAppend(j.attempts, Attempt(HeightQuery, Replied));
    FinalizedExists(c.chain, w);
    if j.request.PacketRequest? {
      DecodeAllExact(j.request.packets);
    }
  }

  lemma TimestampOnTheWay(c: Config, w: World, j: Job, k: Counters, reply: Reply)
    requires w.Valid() && Ready(j, ReadTimestamp(reply)) && Tracked(j) && OnTheWay(c, w, j)
    ensures OnTheWay(c, w, Reacted(j, ReadTimestamp(reply), React(c, w, j, k, ReadTimestamp(reply))))
  {
    if BeyondCosmos(c, j.request.height) {
      assert j.attempts + [] == j.attempts;
    } else {
      TimestampAsked(c, w, j, k, reply);
    }
  }

  lemma TimestampAsked(c: Config, w: World, j: Job, k: Counters, reply: Reply)
    requires w.Valid() && Ready(j, ReadTimestamp(reply)) && Tracked(j) && OnTheWay(c, w, j)
    requires !BeyondCosmos(c, j.request.height)
    ensures OnTheWay(c, w, Reacted(j, ReadTimestamp(reply), React(c, w, j, k, ReadTimestamp(reply))))
  {
    var a := Attempt(TimestampQuery, EndingOf(c, BlockReply(w, j.request.height, reply)));
    GotAppend(j.attempts, a);
    if a.ending == NoReply && j.phase.attempts == 2 {
      GivesUp(j.attempts, TimestampQuery);
    }
  }

  lemma AnswerExplained(c: Config, w: World, j: Job, i: nat, reply: Reply)
    requires w.Valid() && Ready(j, ReadCommitment(i, reply)) && Tracked(j) && OnTheWay(c, w, j)
    ensures var (kind, packets) := Decoded(j.request).value;
            var answer := CommitmentAnswer(c, w, kind, j.request.height, packets[i], reply);
            var a := Attempt(CommitmentQuery(i), if answer.Failed? then NoReply else Replied);
            TaskExplained(c, w, j.attempts + [a], j.request, i, Advance(j.phase.tasks[i], answer))
  {
    var (kind, packets) := Decoded(j.request).value;
    var answer := CommitmentAnswer(c, w, kind, j.request.height, packets[i], reply);
    var a := Attempt(CommitmentQuery(i), if answer.Failed? then NoReply else Replied);
    FinalizedExists(c.chain, w);
    GotAppend(j.attempts, a);
    if answer.Failed? && j.phase.tasks[i].attempts == 2 {
      GivesUp(j.attempts, CommitmentQuery(i));
    }
  }

  lemma CommitmentOnTheWay(c: Config, w: World, j: Job, k: Counters, i: nat, reply: Reply)
    requires w.Valid() && Ready(j, ReadCommitment(i, reply)) && Tracked(j) && OnTheWay(c, w, j)
    ensures OnTheWay(c, w, Reacted(j, ReadCommitment(i, reply), React(c, w, j, k, ReadCommitment(i, reply))))
  {
    var (kind, packets) := Decoded(j.request).value;
    var answer := CommitmentAnswer(c, w, kind, j.request.height, packets[i], reply);
    var a := Attempt(CommitmentQuery(i), if answer.Failed? then NoReply else Replied);
    var tasks := j.phase.tasks[i := Advance(j.phase.tasks[i], answer)];
    AnswerExplained(c, w, j, i, reply);
    GotAppend(j.attempts, a);
    forall x | 0 <= x < |tasks| ensures TaskExplained(c, w, j.attempts + [a], j.request, x, tasks[x]) {
      assert x != i ==> TaskExplained(c, w, j.attempts, j.request, x, tasks[x]);
    }
  }

  lemma GatherOnTheWay(c: Config, w: World, j: Job, k: Counters)
    requires w.Valid() && Ready(j, Gather) && OnTheWay(c, w, j)
    ensures OnTheWay(c, w, Reacted(j, Gather, React(c, w, j, k, Gather)))
  {
    assert j.attempts + [] == j.attempts;
    CollectMeaning(Verdicts(j.phase.tasks));
  }

  lemma SignOnTheWay(c: Config, w: World, j: Job, k: Counters, ok: bool)
    requires w.Valid() && Ready(j, Service.Sign(ok)) && OnTheWay(c, w, j)
    ensures OnTheWay(c, w, Reacted(j, Service.Sign(ok), React(c, w, j, k, Service.Sign(ok))))
  {
    assert j.attempts + [] == j.attempts;
    var o := React(c, w, j, k, Service.Sign(ok)).phase.outcome;
    assert FromSigner(c, j.phase.claim, o);
  }

  lemma ReactOnTheWay(c: Config, w: World, j: Job, k: Counters, a: Action)
    requires w.Valid() && Ready(j, a) && Tracked(j) && OnTheWay(c, w, j)
    ensures OnTheWay(c, w, Reacted(j, a, React(c, w, j, k, a)))
  {
    match a
    case ReadHeight(reply) => GateOnTheWay(c, w, j, k, reply);
    case ReadTimestamp(reply) => TimestampOnTheWay(c, w, j, k, reply);
    case ReadCommitment(i, reply) => CommitmentOnTheWay(c, w, j, k, i, reply);
    case Gather => GatherOnTheWay(c, w, j, k);
    case Sign(ok) => SignOnTheWay(c, w, j, k, ok);
    case Close(_) => assert j.attempts + [] == j.attempts;
  }

  lemma StepOnTheWay(c: Config, s: Server, step: Step, i: nat)
    requires Sane(c) && s.world.Valid() && i < |s.jobs| && Tracked(s.jobs[i]) && OnTheWay(c, s.world, s.jobs[i])
    ensures var s' := Next(c, s, step);
            s'.world.Valid() && i < |s'.jobs| && OnTheWay(c, s'.world, s'.jobs[i])
  {
    match step
    case ChainStep(e) =>
      EvolveKeeps(c.chain, c.maxReorg, s.world, e);
      OnTheWayLater(c, s.world, Next(c, s, step).world, s.jobs[i]);
    case Act(x, a) =>
      if x == i && Ready(s.jobs[i], a) {
        ReactOnTheWay(c, s.world, s.jobs[i], s.counters, a);
      }
    case _ =>
  }

  lemma ArrivesOnTheWay(c: Config, s: Server, step: Step, i: nat)
    requires s.world.Valid() && |s.jobs| <= i < |Next(c, s, step).jobs|
    ensures Next(c, s, step).world.Valid() && OnTheWay(c, Next(c, s, step).world, Next(c, s, step).jobs[i])
  {
  }

  lemma {:induction false} RunOnTheWay(c: Config, w: World, steps: seq<Step>, i: nat)
    requires Sane(c) && w.Valid() && i < |Run(c, w, steps).jobs|
    ensures OnTheWay(c, Run(c, w, steps).world, Run(c, w, steps).jobs[i])
  {
    var n := |steps| - 1;
    var s := Run(c, w, steps[..n]);
    if i < |s.jobs| {
      RunOnTheWay(c, w, steps[..n], i);
      RunTracked(c, w, steps[..n], i);
      StepOnTheWay(c, s, steps[n], i);
    } else {
      ArrivesOnTheWay(c, s, steps[n], i);
    }
  }

  /** In every run every answer is explained by the request's RPC attempts and the chain as it stands. */
  lemma RunExplained(c: Config, w: World, steps: seq<Step>, i: nat)
    requires Sane(c) && w.Valid() && i < |Run(c, w, steps).jobs|
    ensures var s := Run(c, w, steps);
            forall o :: HasAnswer(s.jobs[i], o) ==> Explained(c, s.world, s.jobs[i], o)
  {
    RunOnTheWay(c, w, steps, i);
  }

  /** A height the service once answered is finalized on every later chain of the run. */
  lemma AnsweredHeightFinal(c: Config, w: World, steps: seq<Step>, n: nat, i: nat, f: nat)
    requires Sane(c) && w.Valid() && n <= |steps| && i < |Run(c, w, steps[..n]).jobs|
    requires HasAnswer(Run(c, w, steps[..n]).jobs[i], Ok(HeightResponse(f)))
    ensures f <= Finalized(c.chain, Run(c, w, steps).world)
  {
    var s := Run(c, w, steps[..n]);
    RunExplained(c, w, steps[..n], i);
    HeightAnswerExplained(c, s.world, s.jobs[i], f);
    RunLater(c, w, steps, n);
    FinalizedBelow(c, s.world, Run(c, w, steps).world, f);
  }

  lemma HeightAnswerExplained(c: Config, w: World, j: Job, f: nat)
    requires |w.blocks| > 0 && Explained(c, w, j, Ok(HeightResponse(f)))
    ensures f <= Finalized(c.chain, w)
  {
  }

  lemma FinalizedBelow(c: Config, w: World, w': World, f: nat)
    requires Later(c, w, w') && f <= Finalized(c.chain, w)
    ensures f <= Finalized(c.chain, w')
  {
  }

  /** At or below a finalized height the gate of an up-to-date node lets everyone through. */
  lemma PassesBelow(c: Config, w: World, j: Job, k: Counters, f: nat, behind: nat)
    requires w.Valid() && Ready(j, ReadHeight(Truth(behind))) && f <= Finalized(c.chain, w)
    requires !j.request.HeightRequest? && j.request.height <= f
    requires c.chain != Solana || c.slotLag == 0 || behind == 0
    ensures var phase := React(c, w, j, k, ReadHeight(Truth(behind))).phase;
            phase.AtTimestamp? || phase.AtPackets?
  {
    HeightReplied(c, w, j, k, behind);
  }

  /** So whoever asks for an attestation at or below an answered height later in the run passes the gate. */
  lemma AnsweredHeightPasses(c: Config, w: World, steps: seq<Step>, n: nat, i: nat, f: nat, x: nat, behind: nat)
    requires Sane(c) && w.Valid() && n <= |steps| && i < |Run(c, w, steps[..n]).jobs|
    requires HasAnswer(Run(c, w, steps[..n]).jobs[i], Ok(HeightResponse(f)))
    requires x < |Run(c, w, steps).jobs|
    requires var j := Run(c, w, steps).jobs[x];
             Ready(j, ReadHeight(Truth(behind))) && !j.request.HeightRequest? && j.request.height <= f
    requires c.chain != Solana || c.slotLag == 0 || behind == 0
    ensures var s := Run(c, w, steps);
            var phase := React(c, s.world, s.jobs[x], s.counters, ReadHeight(Truth(behind))).phase;
            phase.AtTimestamp? || phase.AtPackets?
  {
    var s := Run(c, w, steps);
    AnsweredHeightFinal(c, w, steps, n, i, f);
    PassesBelow(c, s.world, s.jobs[x], s.counters, f, behind);
  }
}
