/** How much a request can ask of the node. */
module Work {
  import opened Retry
  import opened Metrics
  import opened Batch
  import opened World
  import opened Service

  /** Three attempts for the height, and three for the timestamp or for each packet. */
  function Limit(r: Request): nat {
    match r
    case HeightRequest => MAX_ATTEMPTS
    case StateRequest(_) => 2 * MAX_ATTEMPTS
    case PacketRequest(packets, _, _) => MAX_ATTEMPTS * (1 + |packets|)
  }

  /** The most attempts the tasks can have made; a finished one counts in full. */
  function Spent(tasks: seq<Task>): nat {
    if tasks == [] then 0 else Spent(tasks[..|tasks| - 1]) + SpentBy(tasks[|tasks| - 1])
  }

  function SpentBy(t: Task): nat {
    match t case Running(n) => n case Finished(_, _) => MAX_ATTEMPTS
  }

  lemma {:induction false} SpentUpdate(tasks: seq<Task>, i: nat, t: Task)
    requires i < |tasks|
    ensures Spent(tasks[i := t]) == Spent(tasks) - SpentBy(tasks[i]) + SpentBy(t)
  {
    var n := |tasks| - 1;
    if i == n {
      assert tasks[i := t][..n] == tasks[..n];
    } else {
      SpentUpdate(tasks[..n], i, t);
      assert tasks[i := t][..n] == tasks[..n][i := t];
    }
  }

  lemma {:induction false} SpentAtMost(tasks: seq<Task>)
    requires forall i :: 0 <= i < |tasks| ==> SpentBy(tasks[i]) <= MAX_ATTEMPTS
    ensures Spent(tasks) <= MAX_ATTEMPTS * |tasks|
  {
    if tasks != [] {
      SpentAtMost(tasks[..|tasks| - 1]);
    }
  }

  /** What a request has used so far, by phase. */
  ghost predicate WithinBudget(j: Job) {
    match j.phase
    case AtGate(n) => |j.attempts| == n < MAX_ATTEMPTS
    case AtTimestamp(n) => j.request.StateRequest? && |j.attempts| <= MAX_ATTEMPTS + n && n < MAX_ATTEMPTS
    case AtPackets(tasks) =>
      && j.request.PacketRequest? && |tasks| == |j.request.packets|
      && (forall i :: 0 <= i < |tasks| ==> tasks[i].Running? ==> tasks[i].attempts < MAX_ATTEMPTS)
      && |j.attempts| <= MAX_ATTEMPTS + Spent(tasks)
    case _ => |j.attempts| <= Limit(j.request)
  }

  lemma WithinLimit(j: Job)
    requires WithinBudget(j)
    ensures |j.attempts| <= Limit(j.request)
  {
    if j.phase.AtPackets? {
      SpentAtMost(j.phase.tasks);
    }
  }

  lemma ReadWithinBudget(c: Config, w: World, j: Job, k: Counters, i: nat, reply: Reply)
    requires w.Valid() && Ready(j, ReadCommitment(i, reply)) && WithinBudget(j)
    ensures WithinBudget(Reacted(j, ReadCommitment(i, reply), React(c, w, j, k, ReadCommitment(i, reply))))
  {
    var (kind, packets) := Decoded(j.request).value;
    var tasks := j.phase.tasks;
    var t := Advance(tasks[i], CommitmentAnswer(c, w, kind, j.request.height, packets[i], reply));
    assert SpentBy(t) >= SpentBy(tasks[i]) + 1;
    SpentUpdate(tasks, i, t);
  }

  lemma ReactWithinBudget(c: Config, w: World, j: Job, k: Counters, a: Action)
    requires w.Valid() && Ready(j, a) && WithinBudget(j)
    ensures WithinBudget(Reacted(j, a, React(c, w, j, k, a)))
  {
    match a
    case ReadCommitment(i, reply) => ReadWithinBudget(c, w, j, k, i, reply);
    case _ => WithinLimit(j);
  }

  lemma StepWithinBudget(c: Config, s: Server, step: Step, i: nat)
    requires s.world.Valid() && i < |s.jobs| && WithinBudget(s.jobs[i])
    ensures i < |Next(c, s, step).jobs| && WithinBudget(Next(c, s, step).jobs[i])
  {
    if step.Act? && step.job == i && Ready(s.jobs[i], step.action) {
      ReactWithinBudget(c, s.world, s.jobs[i], s.counters, step.action);
    }
  }

  /** In every run every request stays within its limit. */
  lemma {:induction false} RunWithinLimits(c: Config, w: World, steps: seq<Step>, i: nat)
    requires w.Valid() && i < |Run(c, w, steps).jobs|
    ensures WithinBudget(Run(c, w, steps).jobs[i])
    ensures |Run(c, w, steps).jobs[i].attempts| <= Limit(Run(c, w, steps).jobs[i].request)
  {
    var n := |steps| - 1;
    var s := Run(c, w, steps[..n]);
    if i < |s.jobs| {
      RunWithinLimits(c, w, steps[..n], i);
      StepWithinBudget(c, s, steps[n], i);
    }
    WithinLimit(Run(c, w, steps).jobs[i]);
  }
}
