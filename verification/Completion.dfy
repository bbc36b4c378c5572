/** No request gets stuck, and none goes on for ever: each is closed after a bounded number of its own actions. */
module Completion {
  import opened Wrappers
  import opened Retry
  import opened Metrics
  import opened Batch
  import opened World
  import opened PacketLists
  import opened Service
  import opened Work

  /** What a request under way is waiting for is there. */
  predicate Workable(j: Job) {
    match j.phase
    case AtGate(_) => j.request.PacketRequest? ==> Decoded(j.request).Ok?
    case AtTimestamp(_) => j.request.StateRequest?
    case AtPackets(tasks) =>
      j.request.PacketRequest? && Decoded(j.request).Ok? && |tasks| == |Decoded(j.request).value.1|
    case _ => true
  }

  lemma ReactWorkable(c: Config, w: World, j: Job, k: Counters, a: Action)
    requires w.Valid() && Ready(j, a) && Workable(j)
    ensures Workable(Reacted(j, a, React(c, w, j, k, a)))
  {
    if j.request.PacketRequest? {
      DecodeAllExact(j.request.packets);
    }
  }

  lemma {:induction false} RunWorkable(c: Config, w: World, steps: seq<Step>, i: nat)
    requires w.Valid() && i < |Run(c, w, steps).jobs|
    ensures Workable(Run(c, w, steps).jobs[i])
  {
    var n := |steps| - 1;
    var s := Run(c, w, steps[..n]);
    if i < |s.jobs| {
      RunWorkable(c, w, steps[..n], i);
      match steps[n]
      case Act(x, a) =>
        if x == i && Ready(s.jobs[i], a) {
          ReactWorkable(c, s.world, s.jobs[i], s.counters, a);
        }
      case _ =>
    }
  }

  lemma WorkableIsReady(j: Job)
    requires Workable(j) && !j.phase.Closed?
    ensures exists a :: Ready(j, a)
  {
    match j.phase {
      case AtGate(_) => assert Ready(j, ReadHeight(Unreachable));
      case AtTimestamp(_) => assert Ready(j, ReadTimestamp(Unreachable));
      case AtPackets(tasks) =>
        if AllFinished(tasks) {
          assert Ready(j, Gather);
        } else {
          var i: nat :| i < |tasks| && tasks[i].Running?;
          assert Ready(j, ReadCommitment(i, Unreachable));
        }
      case AtSigner(_) => assert Ready(j, Service.Sign(true));
      case Resolved(_) => assert Ready(j, Close(0));
    }
  }

  /** In every run, a request that is not closed has an action it is ready for. */
  lemma NeverStuck(c: Config, w: World, steps: seq<Step>, i: nat)
    requires w.Valid() && i < |Run(c, w, steps).jobs| && !Run(c, w, steps).jobs[i].phase.Closed?
    ensures exists a :: Ready(Run(c, w, steps).jobs[i], a)
  {
    RunWorkable(c, w, steps, i);
    WorkableIsReady(Run(c, w, steps).jobs[i]);
  }

  /** The most actions that can follow the height read. */
  function AfterGate(r: Request): nat {
    match r
    case HeightRequest => 1
    case StateRequest(_) => MAX_ATTEMPTS + 2
    case PacketRequest(packets, _, _) => MAX_ATTEMPTS * |packets| + 3
  }

  /** The most actions a request can still take. */
  function Remaining(j: Job): int {
    match j.phase
    case AtGate(n) => MAX_ATTEMPTS - n + AfterGate(j.request)
    case AtTimestamp(n) => MAX_ATTEMPTS - n + 2
    case AtPackets(tasks) => MAX_ATTEMPTS * |tasks| - Spent(tasks) + 3
    case AtSigner(_) => 2
    case Resolved(_) => 1
    case Closed(_) => 0
  }

  lemma {:induction false} SpentFresh(tasks: seq<Task>)
    requires forall i :: 0 <= i < |tasks| ==> tasks[i] == Running(0)
    ensures Spent(tasks) == 0
  {
    if tasks != [] {
      SpentFresh(tasks[..|tasks| - 1]);
    }
  }

  lemma GateAdvances(c: Config, w: World, j: Job, k: Counters, reply: Reply)
    requires w.Valid() && Ready(j, ReadHeight(reply)) && WithinBudget(j)
    ensures Remaining(Reacted(j, ReadHeight(reply), React(c, w, j, k, ReadHeight(reply)))) < Remaining(j)
  {
    var phase := GateEffect(c, w, j.request, j.phase.attempts, k, reply).0;
    if phase.AtPackets? {
      SpentFresh(phase.tasks);
    }
  }

  lemma CommitmentAdvances(c: Config, w: World, j: Job, k: Counters, i: nat, reply: Reply)
    requires w.Valid() && Ready(j, ReadCommitment(i, reply)) && WithinBudget(j)
    ensures Remaining(Reacted(j, ReadCommitment(i, reply), React(c, w, j, k, ReadCommitment(i, reply)))) < Remaining(j)
  {
    var (kind, packets) := Decoded(j.request).value;
    var t := j.phase.tasks[i];
    SpentUpdate(j.phase.tasks, i, Advance(t, CommitmentAnswer(c, w, kind, j.request.height, packets[i], reply)));
  }

  lemma GatherAdvances(c: Config, w: World, j: Job, k: Counters)
    requires w.Valid() && Ready(j, Gather)
    ensures Remaining(Reacted(j, Gather, React(c, w, j, k, Gather))) < Remaining(j)
  {
    SpentAtMost(j.phase.tasks);
  }

  /** Every action brings its request closer to its end. */
  lemma ReactAdvances(c: Config, w: World, j: Job, k: Counters, a: Action)
    requires w.Valid() && Ready(j, a) && WithinBudget(j)
    ensures Remaining(Reacted(j, a, React(c, w, j, k, a))) < Remaining(j)
  {
    match a
    case ReadHeight(reply) => GateAdvances(c, w, j, k, reply);
    case ReadCommitment(i, reply) => CommitmentAdvances(c, w, j, k, i, reply);
    case Gather => GatherAdvances(c, w, j, k);
    case _ =>
  }

  /** The step is an action of request `i` that takes effect. */
  predicate Takes(s: Server, step: Step, i: nat) {
    step.Act? && step.job == i && i < |s.jobs| && Ready(s.jobs[i], step.action)
  }

  /** The actions of request `i` that have taken effect. */
  ghost function Taken(c: Config, w: World, steps: seq<Step>, i: nat): nat
    requires w.Valid()
  {
    if steps == [] then 0
    else
      var n := |steps| - 1;
      Taken(c, w, steps[..n], i) + One(Takes(Run(c, w, steps[..n]), steps[n], i))
  }

  lemma StepAdvances(c: Config, s: Server, step: Step, i: nat)
    requires s.world.Valid() && i < |s.jobs| && WithinBudget(s.jobs[i])
    ensures var s' := Next(c, s, step);
            && i < |s'.jobs| && s'.jobs[i].request == s.jobs[i].request
            && Remaining(s'.jobs[i]) + One(Takes(s, step, i)) <= Remaining(s.jobs[i])
  {
    if Takes(s, step, i) {
      ReactAdvances(c, s.world, s.jobs[i], s.counters, step.action);
    }
  }

  lemma RemainingIsNat(j: Job)
    requires WithinBudget(j)
    ensures 0 <= Remaining(j) && (Remaining(j) == 0 ==> j.phase.Closed?)
  {
    if j.phase.AtPackets? {
      SpentAtMost(j.phase.tasks);
    }
  }

  lemma {:induction false} NoneTakenBefore(c: Config, w: World, steps: seq<Step>, i: nat)
    requires w.Valid() && |Run(c, w, steps).jobs| <= i
    ensures Taken(c, w, steps, i) == 0
  {
    if steps != [] {
      NoneTakenBefore(c, w, steps[..|steps| - 1], i);
    }
  }

  lemma {:induction false} TakenAndRemaining(c: Config, w: World, steps: seq<Step>, i: nat)
    requires w.Valid() && i < |Run(c, w, steps).jobs|
    ensures var j := Run(c, w, steps).jobs[i];
            Taken(c, w, steps, i) + Remaining(j) <= MAX_ATTEMPTS + AfterGate(j.request)
  {
    var n := |steps| - 1;
    var s := Run(c, w, steps[..n]);
    if i < |s.jobs| {
      TakenAndRemaining(c, w, steps[..n], i);
      RunWithinLimits(c, w, steps[..n], i);
      StepAdvances(c, s, steps[n], i);
    } else {
      NoneTakenBefore(c, w, steps[..n], i);
      ArrivalRemains(c, s, steps[n], i);
    }
  }

  lemma ArrivalRemains(c: Config, s: Server, step: Step, i: nat)
    requires s.world.Valid() && |s.jobs| <= i < |Next(c, s, step).jobs|
    ensures var j := Next(c, s, step).jobs[i];
            Remaining(j) <= MAX_ATTEMPTS + AfterGate(j.request) && !Takes(s, step, i)
  {
  }

  /** In every run a request takes at most so many actions, by its kind; with none left it is closed. */
  lemma RunAdvances(c: Config, w: World, steps: seq<Step>, i: nat)
    requires w.Valid() && i < |Run(c, w, steps).jobs|
    ensures var j := Run(c, w, steps).jobs[i];
            && Taken(c, w, steps, i) <= MAX_ATTEMPTS + AfterGate(j.request)
            && (Taken(c, w, steps, i) == MAX_ATTEMPTS + AfterGate(j.request) ==> j.phase.Closed?)
  {
    TakenAndRemaining(c, w, steps, i);
    RunWithinLimits(c, w, steps, i);
    RemainingIsNat(Run(c, w, steps).jobs[i]);
  }
}
