/**
 * Where reads are at a fixed height, a batch's result does not depend on the interleaving:
 * with other requests, with the chain, or among its own tasks.
 */
module Determinism {
  import opened Types
  import opened Paths
  import opened World
  import opened Adapters
  import opened Attestor
  import opened Metrics
  import opened Batch
  import opened PacketLists
  import opened Service
  import opened Soundness
  import opened Answers
  import opened Accounting

  /** What one packet's task ends in, from the chain alone; a task can otherwise only run out of attempts. */
  ghost function Ideally(c: Config, w: World, r: Request, i: nat): Task
    requires r.PacketRequest? && Decoded(r).Ok? && i < |Decoded(r).value.1| && r.height < |w.blocks|
  {
    var (kind, packets) := Decoded(r).value;
    Finished(r.height, Attest(c.crypto, c.chain, c.discriminator, StoreAt(c, w, r.height), kind, packets[i], r.height))
  }

  ghost predicate TaskDetermined(c: Config, w: World, r: Request, i: nat, t: Task)
    requires r.PacketRequest? && Decoded(r).Ok? && i < |Decoded(r).value.1| && r.height < |w.blocks|
  {
    t.Finished? ==> t == EXHAUSTED || t == Ideally(c, w, r, i)
  }

  ghost predicate Determined(c: Config, w: World, j: Job)
    requires |w.blocks| > 0
  {
    TasksOf(j) != [] ==>
      && j.request.PacketRequest? && Decoded(j.request).Ok?
      && j.request.height <= Finalized(c.chain, w) && j.request.height < |w.blocks|
      && |TasksOf(j)| == |Decoded(j.request).value.1|
      && forall i :: 0 <= i < |TasksOf(j)| ==> TaskDetermined(c, w, j.request, i, TasksOf(j)[i])
  }

  lemma DeterminedPersists(c: Config, w: World, w': World, j: Job)
    requires Later(c, w, w') && Determined(c, w, j)
    ensures Determined(c, w', j)
  {
    if TasksOf(j) != [] {
      StoreKept(c, w, w', Finalized(c.chain, w), j.request.height);
      forall i | 0 <= i < |TasksOf(j)| ensures TaskDetermined(c, w', j.request, i, TasksOf(j)[i]) {
        assert TaskDetermined(c, w, j.request, i, TasksOf(j)[i]);
      }
    }
  }

  lemma ReactDetermined(c: Config, w: World, j: Job, k: Counters, a: Action)
    requires w.Valid() && c.chain != Solana && Ready(j, a) && JobSound(c, w, j) && Orderly(j) && Determined(c, w, j)
    ensures Determined(c, w, Reacted(j, a, React(c, w, j, k, a)))
  {
    FinalizedExists(c.chain, w);
    if a.ReadHeight? && j.request.PacketRequest? {
      DecodeAllExact(j.request.packets);
    } else if a.ReadCommitment? {
      var j' := Reacted(j, a, React(c, w, j, k, a));
      forall i | 0 <= i < |TasksOf(j')| ensures TaskDetermined(c, w, j'.request, i, TasksOf(j')[i]) {
        assert TaskDetermined(c, w, j.request, i, TasksOf(j)[i]);
      }
    }
  }

  lemma StepDetermined(c: Config, s: Server, step: Step, i: nat)
    requires Sane(c) && c.chain != Solana && Sound(c, s) && i < |s.jobs|
    requires Orderly(s.jobs[i]) && Determined(c, s.world, s.jobs[i])
    ensures var s' := Next(c, s, step);
            s'.world.Valid() && i < |s'.jobs| && Determined(c, s'.world, s'.jobs[i])
  {
    match step
    case ChainStep(e) =>
      EvolveKeeps(c.chain, c.maxReorg, s.world, e);
      DeterminedPersists(c, s.world, Next(c, s, step).world, s.jobs[i]);
    case Act(x, a) =>
      if x == i && Ready(s.jobs[i], a) {
        ReactDetermined(c, s.world, s.jobs[i], s.counters, a);
      }
    case _ =>
  }

  lemma {:induction false} RunDetermined(c: Config, w: World, steps: seq<Step>, i: nat)
    requires Sane(c) && c.chain != Solana && w.Valid() && i < |Run(c, w, steps).jobs|
    ensures Determined(c, Run(c, w, steps).world, Run(c, w, steps).jobs[i])
  {
    var n := |steps| - 1;
    var s := Run(c, w, steps[..n]);
    if i < |s.jobs| {
      RunDetermined(c, w, steps[..n], i);
      RunSound(c, w, steps[..n]);
      RunBalances(OkSigns, c, w, steps[..n]);
      StepDetermined(c, s, steps[n], i);
    }
  }

  /** The batch attested sequentially against the chain at the requested height. */
  ghost function SequentialBatch(c: Config, w: World, r: Request): seq<Task>
    requires r.PacketRequest? && Decoded(r).Ok? && r.height < |w.blocks|
  {
    seq(|Decoded(r).value.1|, i requires 0 <= i < |Decoded(r).value.1| => Ideally(c, w, r, i))
  }

  /** A gathered batch in which no read ran out of attempts is the sequential one, in every run. */
  lemma BatchIsSequential(c: Config, w: World, steps: seq<Step>, i: nat)
    requires Sane(c) && c.chain != Solana && w.Valid() && i < |Run(c, w, steps).jobs|
    requires Run(c, w, steps).jobs[i].ended != [] && EXHAUSTED !in Run(c, w, steps).jobs[i].ended
    ensures var s := Run(c, w, steps);
            var j := s.jobs[i];
            && j.request.PacketRequest? && Decoded(j.request).Ok? && j.request.height < |s.world.blocks|
            && j.ended == SequentialBatch(c, s.world, j.request)
  {
    var s := Run(c, w, steps);
    var j := s.jobs[i];
    RunDetermined(c, w, steps, i);
    RunBalances(OkSigns, c, w, steps);
    assert Orderly(j);
    forall x | 0 <= x < |j.ended| ensures j.ended[x] == Ideally(c, s.world, j.request, x) {
      assert TaskDetermined(c, s.world, j.request, x, TasksOf(j)[x]);
    }
  }

  // A batch is signed exactly when it should be.

  /** Once gathered, a request goes the way its batch decides: to the signer and its answer, or to the batch's error. */
  predicate Settled(j: Job) {
    j.ended != [] ==>
      && j.request.PacketRequest? && Decoded(j.request).Ok? && AllFinished(j.ended)
      && match GatherEffect(j.request, j.ended)
         case AtSigner(m) => j.phase == AtSigner(m) || AnsweredWith(j, SignerFailure) || Attested(j)
         case Resolved(o) => HasAnswer(j, o)
         case _ => false
  }

  lemma ReactSettled(c: Config, w: World, j: Job, k: Counters, a: Action)
    requires w.Valid() && Ready(j, a) && Orderly(j) && Settled(j)
    ensures Settled(Reacted(j, a, React(c, w, j, k, a)))
  {
  }

  lemma StepSettled(c: Config, s: Server, step: Step, i: nat)
    requires s.world.Valid() && i < |s.jobs| && Orderly(s.jobs[i]) && Settled(s.jobs[i])
    ensures i < |Next(c, s, step).jobs| && Settled(Next(c, s, step).jobs[i])
  {
    if step.Act? && step.job == i && Ready(s.jobs[i], step.action) {
      ReactSettled(c, s.world, s.jobs[i], s.counters, step.action);
    }
  }

  lemma {:induction false} RunSettled(c: Config, w: World, steps: seq<Step>, i: nat)
    requires w.Valid() && i < |Run(c, w, steps).jobs|
    ensures Settled(Run(c, w, steps).jobs[i])
  {
    var n := |steps| - 1;
    var s := Run(c, w, steps[..n]);
    if i < |s.jobs| {
      RunSettled(c, w, steps[..n], i);
      RunBalances(OkSigns, c, w, steps[..n]);
      StepSettled(c, s, steps[n], i);
    }
  }

  /** There is something true to attest about packet `x` at the requested height. */
  ghost predicate Attestable(c: Config, w: World, r: Request, x: nat)
    requires r.PacketRequest? && Decoded(r).Ok? && x < |Decoded(r).value.1| && r.height < |w.blocks|
  {
    exists item :: Holds(c.crypto, StoreAt(c, w, r.height), Decoded(r).value.0, Decoded(r).value.1[x], item)
  }

  /** No path of the batch collides with one in an EVM store. */
  ghost predicate PathsApart(c: Config, w: World, r: Request)
    requires r.PacketRequest? && Decoded(r).Ok? && r.height < |w.blocks|
  {
    c.chain.Evm? ==> forall p :: p in Decoded(r).value.1 ==>
      !PathCollision(c.crypto, StoreAt(c, w, r.height), KeyOf(Decoded(r).value.0, p))
  }

  lemma AttestableExactly(c: Config, w: World, r: Request, x: nat)
    requires |c.discriminator| == DISCRIMINATOR_LEN
    requires r.PacketRequest? && Decoded(r).Ok? && x < |Decoded(r).value.1| && r.height < |w.blocks|
    requires PathsApart(c, w, r)
    ensures Ideally(c, w, r, x).verdict.Ok? <==> Attestable(c, w, r, x)
  {
    var (kind, packets) := Decoded(r).value;
    AttestExact(c.crypto, c.chain, c.discriminator, StoreAt(c, w, r.height), kind, packets[x], r.height);
  }

  lemma SequentialBatchSigned(c: Config, w: World, r: Request)
    requires |c.discriminator| == DISCRIMINATOR_LEN
    requires r.PacketRequest? && Decoded(r).Ok? && r.height < |w.blocks| && PathsApart(c, w, r)
    ensures Collect(Verdicts(SequentialBatch(c, w, r))).Ok? <==>
            forall x :: 0 <= x < |Decoded(r).value.1| ==> Attestable(c, w, r, x)
  {
    var verdicts := Verdicts(SequentialBatch(c, w, r));
    CollectMeaning(verdicts);
    forall x | 0 <= x < |Decoded(r).value.1| ensures verdicts[x].Ok? <==> Attestable(c, w, r, x) {
      AttestableExactly(c, w, r, x);
    }
    if Collect(verdicts).Err? {
      var x: nat :| FirstError(verdicts, x, Collect(verdicts).error);
      assert !Attestable(c, w, r, x);
    }
  }

  /** The request went on to the signer. */
  predicate SentToSigner(j: Job) {
    j.phase.AtSigner? || AnsweredWith(j, SignerFailure) || Attested(j)
  }

  /** A settled request with a batch whose verdicts the service can reach went on exactly when the batch collects. */
  lemma SettledSent(j: Job)
    requires Settled(j) && Orderly(j) && j.ended != []
    ensures SentToSigner(j) <==> Collect(Verdicts(j.ended)).Ok?
  {
    var verdicts := Verdicts(j.ended);
    CollectMeaning(verdicts);
    if Collect(verdicts).Err? {
      var x: nat :| FirstError(verdicts, x, Collect(verdicts).error);
      assert Judged(j.ended[x].verdict);
    }
  }

  /**
   * In every run, where reads are at a fixed height: a gathered batch in which no read ran out of attempts
   * is sent to the signer if and only if each of its packets has something true to attest.
   */
  lemma BatchSignedIffTrue(c: Config, w: World, steps: seq<Step>, i: nat)
    requires Sane(c) && c.chain != Solana && w.Valid() && i < |Run(c, w, steps).jobs|
    requires Run(c, w, steps).jobs[i].ended != [] && EXHAUSTED !in Run(c, w, steps).jobs[i].ended
    ensures var s := Run(c, w, steps);
            var j := s.jobs[i];
            && j.request.PacketRequest? && Decoded(j.request).Ok? && j.request.height < |s.world.blocks|
            && (PathsApart(c, s.world, j.request) ==>
                  (SentToSigner(j) <==>
                   forall x :: 0 <= x < |Decoded(j.request).value.1| ==> Attestable(c, s.world, j.request, x)))
  {
    var s := Run(c, w, steps);
    BatchIsSequential(c, w, steps, i);
    RunSettled(c, w, steps, i);
    RunBalances(OkSigns, c, w, steps);
    SettledSent(s.jobs[i]);
    if PathsApart(c, s.world, s.jobs[i].request) {
      SequentialBatchSigned(c, s.world, s.jobs[i].request);
    }
  }
}
