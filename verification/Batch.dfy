/** A batch of packet tasks: each retries its own read, all run concurrently, results are taken in input order. */
module Batch {
  import opened Wrappers
  import opened Types
  import opened Labels
  import opened Metrics
  import opened Retry
  import opened Attestor

  /** What one RPC attempt of a task yields: no answer, or a verdict from a read at some height. */
  datatype Answer = Failed | Answered(readAt: nat, verdict: Verdict)

  datatype Task = Running(attempts: nat) | Finished(readAt: nat, verdict: Verdict)

  /** The label under which failed commitment reads are counted. */
  const READ := "get_commitment"

  const EXHAUSTED: Task := Finished(0, Err(AdapterFailure(RetrievalError)))

  /** One more attempt of an unfinished task. */
  function Advance(t: Task, a: Answer): Task {
    match t
    case Finished(_, _) => t
    case Running(n) =>
      match a
      case Answered(readAt, verdict) => Finished(readAt, verdict)
      case Failed => if n + 1 < MAX_ATTEMPTS then Running(n + 1) else EXHAUSTED
  }

  /** `script(i)` is the answer to the task's attempt `i`. */
  type Script = nat -> Answer

  function Poll(script: Script, t: Task): Task {
    match t
    case Running(n) => Advance(t, script(n))
    case Finished(_, _) => t
  }

  /** The result of a task run on its own, by the retry rule. */
  function Final(script: Script): (t: Task) {
    match script(Attempts(Outcomes(script), MAX_ATTEMPTS) - 1)
    case Answered(readAt, verdict) => Finished(readAt, verdict)
    case Failed => EXHAUSTED
  }

  /** An attempt as the retry loop sees it. */
  function Outcomes(script: Script): nat -> Result<Answer, AdapterError> {
    (n: nat) => match script(n)
         case Failed => Err(RetrievalError)
         case Answered(_, _) => Ok(script(n))
  }

  /** The tasks after polling in the given order; an index that is no task's is skipped. */
  function Polled(scripts: seq<Script>, order: seq<nat>): (tasks: seq<Task>)
    ensures |tasks| == |scripts|
  {
    if order == [] then seq(|scripts|, _ => Running(0))
    else PolledOnce(scripts, Polled(scripts, order[..|order| - 1]), order[|order| - 1])
  }

  function PolledOnce(scripts: seq<Script>, tasks: seq<Task>, i: nat): (r: seq<Task>)
    requires |tasks| == |scripts|
    ensures |r| == |tasks|
  {
    if i < |tasks| then tasks[i := Poll(scripts[i], tasks[i])] else tasks
  }

  /** A task on its way: its failed attempts so far, or its final result. */
  ghost predicate OnTrack(script: Script, t: Task) {
    match t
    case Running(n) => n < MAX_ATTEMPTS && forall i :: 0 <= i < n ==> script(i) == Failed
    case Finished(_, _) => t == Final(script)
  }

  /** Each step of the task automaton follows the retry rule. */
  lemma PollOnTrack(script: Script, t: Task)
    requires OnTrack(script, t)
    ensures OnTrack(script, Poll(script, t))
  {
    if t.Running? && (script(t.attempts).Answered? || t.attempts + 1 == MAX_ATTEMPTS) {
      var outcomes := Outcomes(script);
      forall i | 0 <= i < t.attempts ensures Retryable(outcomes(i)) {
        assert script(i) == Failed;
      }
      AttemptsUnique(outcomes, MAX_ATTEMPTS, t.attempts + 1);
    }
  }

  lemma {:induction false} PolledOnTrack(scripts: seq<Script>, order: seq<nat>, i: nat)
    requires i < |scripts|
    ensures OnTrack(scripts[i], Polled(scripts, order)[i])
  {
    if order != [] {
      var before := order[..|order| - 1];
      PolledOnTrack(scripts, before, i);
      PollOnTrack(scripts[i], Polled(scripts, before)[i]);
    }
  }

  /** Results in input order: all of them, or the error of the first packet that failed. */
  function Collect(verdicts: seq<Verdict>): Result<seq<PacketCompact>, AttestorError> {
    if verdicts == [] then Ok([])
    else
      var n := |verdicts| - 1;
      match Collect(verdicts[..n])
      case Err(e) => Err(e)
      case Ok(items) => match verdicts[n] case Ok(item) => Ok(items + [item]) case Err(e) => Err(e)
  }

  ghost predicate AllOk(verdicts: seq<Verdict>, items: seq<PacketCompact>) {
    |items| == |verdicts| && forall i :: 0 <= i < |verdicts| ==> verdicts[i] == Ok(items[i])
  }

  ghost predicate FirstError(verdicts: seq<Verdict>, i: nat, e: AttestorError) {
    i < |verdicts| && verdicts[i] == Err(e) && forall j :: 0 <= j < i ==> verdicts[j].Ok?
  }

  ghost predicate Collected(verdicts: seq<Verdict>, r: Result<seq<PacketCompact>, AttestorError>) {
    match r
    case Ok(items) => AllOk(verdicts, items)
    case Err(e) => exists i: nat :: FirstError(verdicts, i, e)
  }

  lemma {:induction false} CollectMeaning(verdicts: seq<Verdict>)
    ensures Collected(verdicts, Collect(verdicts))
  {
    if verdicts != [] {
      var n := |verdicts| - 1;
      var before := verdicts[..n];
      CollectMeaning(before);
      assert forall j :: 0 <= j < n ==> verdicts[j] == before[j];
      match Collect(before) {
        case Ok(items) =>
          assert AllOk(before, items);
          match verdicts[n] {
            case Ok(item) => assert AllOk(verdicts, items + [item]);
            case Err(e) => assert FirstError(verdicts, n, e);
          }
        case Err(e) =>
          var i: nat :| FirstError(before, i, e);
          assert FirstError(verdicts, i, e);
      }
    }
  }

  predicate AllFinished(tasks: seq<Task>) {
    forall i :: 0 <= i < |tasks| ==> tasks[i].Finished?
  }

  function Verdicts(tasks: seq<Task>): seq<Verdict>
    requires AllFinished(tasks)
  {
    seq(|tasks|, i requires 0 <= i < |tasks| => tasks[i].verdict)
  }

  /** Every task run on its own, one after the other. */
  function Sequentially(scripts: seq<Script>): (tasks: seq<Task>)
    ensures AllFinished(tasks)
  {
    seq(|scripts|, i requires 0 <= i < |scripts| => Final(scripts[i]))
  }

  /** Every order in which all tasks finish ends like running them one after the other. */
  lemma ScheduleIndependence(scripts: seq<Script>, order: seq<nat>)
    requires AllFinished(Polled(scripts, order))
    ensures Polled(scripts, order) == Sequentially(scripts)
    ensures Collect(Verdicts(Polled(scripts, order))) == Collect(Verdicts(Sequentially(scripts)))
  {
    forall i | 0 <= i < |scripts| ensures Polled(scripts, order)[i] == Sequentially(scripts)[i] {
      PolledOnTrack(scripts, order, i);
      assert Polled(scripts, order)[i].Finished?;
    }
  }

  // Counting.

  /** The tasks that ended in a failure of the given kind. */
  function Tally(tasks: seq<Task>, kind: FailureKind): nat {
    if tasks == [] then 0
    else Tally(tasks[..|tasks| - 1], kind) + One(EndedIn(tasks[|tasks| - 1], kind))
  }

  /** How an answer moves the counters: a failed verdict by its kind, a third failed attempt as a retry failure. */
  function AnswerCounted(c: Counters, attempts: nat, answer: Answer): Counters {
    match answer
    case Answered(_, verdict) => VerdictCounted(c, verdict)
    case Failed => if attempts + 1 < MAX_ATTEMPTS then c else RetryFailed(c, READ)
  }

  function PollCounted(c: Counters, script: Script, t: Task): Counters {
    match t case Finished(_, _) => c case Running(n) => AnswerCounted(c, n, script(n))
  }

  predicate EndedIn(t: Task, kind: FailureKind) {
    t.Finished? && t.verdict.Err? && FailureOf(t.verdict.error) == Some(kind)
  }

  /** The other ends of a task: a validated packet, or an error of the adapter. */
  function TallySuccesses(tasks: seq<Task>): nat {
    if tasks == [] then 0
    else TallySuccesses(tasks[..|tasks| - 1]) + One(Succeeded(tasks[|tasks| - 1]))
  }

  predicate Succeeded(t: Task) {
    t.Finished? && t.verdict.Ok?
  }

  function TallyAdapterErrors(tasks: seq<Task>): nat {
    if tasks == [] then 0
    else TallyAdapterErrors(tasks[..|tasks| - 1]) + One(AdapterErred(tasks[|tasks| - 1]))
  }

  predicate AdapterErred(t: Task) {
    t.Finished? && t.verdict.Err? && t.verdict.error.AdapterFailure?
  }

  lemma {:induction false} TallyUpdate(tasks: seq<Task>, i: nat, t: Task, kind: FailureKind)
    requires i < |tasks|
    ensures Tally(tasks[i := t], kind) ==
            Tally(tasks, kind) - One(EndedIn(tasks[i], kind)) + One(EndedIn(t, kind))
  {
    var n := |tasks| - 1;
    if i == n {
      assert tasks[i := t][..n] == tasks[..n];
    } else {
      TallyUpdate(tasks[..n], i, t, kind);
      assert tasks[i := t][..n] == tasks[..n][i := t];
    }
  }

  lemma {:induction false} TallyFresh(tasks: seq<Task>, kind: FailureKind)
    requires forall i :: 0 <= i < |tasks| ==> tasks[i].Running?
    ensures Tally(tasks, kind) == 0
  {
    if tasks != [] {
      TallyFresh(tasks[..|tasks| - 1], kind);
    }
  }

  /** No attempt of the script is answered. */
  predicate Exhausts(script: Script) {
    forall i :: 0 <= i < MAX_ATTEMPTS ==> script(i) == Failed
  }

  /** The tasks that ran out of attempts. */
  function TallyExhausted(scripts: seq<Script>, tasks: seq<Task>): nat
    requires |tasks| == |scripts|
  {
    if tasks == [] then 0
    else
      var n := |tasks| - 1;
      TallyExhausted(scripts[..n], tasks[..n]) + One(tasks[n].Finished? && Exhausts(scripts[n]))
  }

  lemma {:induction false} TallyExhaustedUpdate(scripts: seq<Script>, tasks: seq<Task>, i: nat, t: Task)
    requires i < |tasks| == |scripts|
    ensures TallyExhausted(scripts, tasks[i := t]) ==
            TallyExhausted(scripts, tasks)
            - One(tasks[i].Finished? && Exhausts(scripts[i])) + One(t.Finished? && Exhausts(scripts[i]))
  {
    var n := |tasks| - 1;
    if i == n {
      assert tasks[i := t][..n] == tasks[..n];
    } else {
      TallyExhaustedUpdate(scripts[..n], tasks[..n], i, t);
      assert tasks[i := t][..n] == tasks[..n][i := t];
    }
  }

  lemma {:induction false} TallyExhaustedFresh(scripts: seq<Script>, tasks: seq<Task>)
    requires |tasks| == |scripts| && forall i :: 0 <= i < |tasks| ==> tasks[i].Running?
    ensures TallyExhausted(scripts, tasks) == 0
  {
    if tasks != [] {
      TallyExhaustedFresh(scripts[..|tasks| - 1], tasks[..|tasks| - 1]);
    }
  }

  lemma {:induction false} Partition(tasks: seq<Task>)
    requires AllFinished(tasks) && forall i :: 0 <= i < |tasks| ==> Judged(tasks[i].verdict)
    ensures |tasks| == TallySuccesses(tasks) + TallyAdapterErrors(tasks)
                       + Tally(tasks, FailNotFound) + Tally(tasks, FailMismatch) + Tally(tasks, FailUnexpectedReceipt)
  {
    if tasks != [] {
      var last := tasks[|tasks| - 1];
      assert Judged(last.verdict);
      Partition(tasks[..|tasks| - 1]);
    }
  }

  /**
   * `create_packets_attestation`: tasks are polled in the order `order`, then each is driven to its end;
   * results are collected in input order.
   */
  method CreatePacketsAttestation(metrics: Metrics, scripts: seq<Script>, order: seq<nat>)
    returns (r: Result<seq<PacketCompact>, AttestorError>)
    modifies metrics
    ensures r == Collect(Verdicts(Sequentially(scripts)))
    ensures metrics.cell == Recorded(old(metrics.cell), Current(metrics.cell))
    ensures metrics.cell.Some? ==>
              RisenBy(Current(old(metrics.cell)), Current(metrics.cell), scripts, Sequentially(scripts))
  {
    ghost var before := metrics.cell;
    var tasks := new Task[|scripts|](_ => Running(0));
    forall kind ensures Tally(tasks[..], kind) == 0 {
      TallyFresh(tasks[..], kind);
    }
    TallyExhaustedFresh(scripts, tasks[..]);
    PollInOrder(metrics, before, scripts, tasks, order);
    FinishAll(metrics, before, scripts, tasks);
    assert tasks[..] == Sequentially(scripts) by {
      forall i | 0 <= i < |scripts| ensures tasks[..][i] == Sequentially(scripts)[i] {
        assert OnTrack(scripts[i], tasks[..][i]);
      }
    }
    r := CollectInOrder(tasks);
  }

  method PollInOrder(metrics: Metrics, ghost before: Option<Registry>, scripts: seq<Script>, tasks: array<Task>,
                     order: seq<nat>)
    requires OnSchedule(metrics.cell, before, scripts, tasks[..])
    modifies metrics, tasks
    ensures OnSchedule(metrics.cell, before, scripts, tasks[..])
  {
    for k := 0 to |order|
      invariant OnSchedule(metrics.cell, before, scripts, tasks[..])
    {
      if order[k] < tasks.Length {
        ProgressStep(metrics.cell, before, scripts, tasks[..], order[k]);
        PollAt(metrics, scripts, tasks, order[k]);
      }
    }
  }

  method FinishAll(metrics: Metrics, ghost before: Option<Registry>, scripts: seq<Script>, tasks: array<Task>)
    requires OnSchedule(metrics.cell, before, scripts, tasks[..])
    modifies metrics, tasks
    ensures OnSchedule(metrics.cell, before, scripts, tasks[..])
    ensures AllFinished(tasks[..])
  {
    for k := 0 to tasks.Length
      invariant OnSchedule(metrics.cell, before, scripts, tasks[..])
      invariant forall i :: 0 <= i < k ==> tasks[i].Finished?
    {
      Finish(metrics, before, scripts, tasks, k);
    }
  }

  method Finish(metrics: Metrics, ghost before: Option<Registry>, scripts: seq<Script>, tasks: array<Task>, k: nat)
    requires k < tasks.Length && OnSchedule(metrics.cell, before, scripts, tasks[..])
    modifies metrics, tasks
    ensures OnSchedule(metrics.cell, before, scripts, tasks[..])
    ensures tasks[k].Finished?
    ensures forall i :: 0 <= i < tasks.Length && i != k ==> tasks[i] == old(tasks[i])
  {
    while tasks[k].Running?
      invariant OnSchedule(metrics.cell, before, scripts, tasks[..])
      invariant forall i :: 0 <= i < tasks.Length && i != k ==> tasks[i] == old(tasks[i])
      decreases match tasks[k] case Running(n) => MAX_ATTEMPTS - n case Finished(_, _) => 0
    {
      ghost var was := tasks[..];
      ProgressStep(metrics.cell, before, scripts, was, k);
      PollAt(metrics, scripts, tasks, k);
      assert forall i :: 0 <= i < tasks.Length ==> tasks[i] == PolledOnce(scripts, was, k)[i];
    }
  }

  /**
   * How a batch moves the counters: each kind of failure by the tasks that ended in it,
   * the retry failures by the tasks that ran out of attempts, and nothing else.
   */
  ghost predicate RisenBy(c: Counters, c': Counters, scripts: seq<Script>, tasks: seq<Task>)
    requires |tasks| == |scripts|
  {
    && (forall kind :: Count(c'.commitmentFailures, FailureLabel(kind)) ==
                       Count(c.commitmentFailures, FailureLabel(kind)) + Tally(tasks, kind))
    && (forall operation :: Count(c'.retryFailures, operation) ==
                            Count(c.retryFailures, operation)
                            + if operation == READ then TallyExhausted(scripts, tasks) else 0)
    && c'.(commitmentFailures := map[], retryFailures := map[]) ==
       c.(commitmentFailures := map[], retryFailures := map[])
  }

  /** Between polls: every task follows its script, and the counters have risen by what ended so far. */
  ghost predicate OnSchedule(cell: Option<Registry>, before: Option<Registry>, scripts: seq<Script>, tasks: seq<Task>) {
    && |tasks| == |scripts|
    && (forall i :: 0 <= i < |tasks| ==> OnTrack(scripts[i], tasks[i]))
    && cell == Recorded(before, Current(cell))
    && (cell.Some? ==> RisenBy(Current(before), Current(cell), scripts, tasks))
  }

  /** A verdict is counted under the label of its own kind of failure and no other. */
  lemma VerdictCountedByKind(c: Counters, v: Verdict, kind: FailureKind)
    ensures Count(VerdictCounted(c, v).commitmentFailures, FailureLabel(kind)) ==
            Count(c.commitmentFailures, FailureLabel(kind)) + One(v.Err? && FailureOf(v.error) == Some(kind))
  {
    if v.Err? {
      match FailureOf(v.error)
      case None =>
      case Some(k) => FailureLabelInjective(kind, k);
    }
  }

  /** A poll is counted under a kind exactly when the task ends in that kind. */
  lemma PollCountedByKind(c: Counters, script: Script, t: Task, kind: FailureKind)
    ensures Count(PollCounted(c, script, t).commitmentFailures, FailureLabel(kind)) ==
            Count(c.commitmentFailures, FailureLabel(kind))
            + One(EndedIn(Poll(script, t), kind)) - One(EndedIn(t, kind))
  {
    if t.Running? && script(t.attempts).Answered? {
      VerdictCountedByKind(c, script(t.attempts).verdict, kind);
    }
  }

  /** A poll is counted as a retry failure exactly when the task runs out of attempts. */
  lemma PollCountedRetries(c: Counters, script: Script, t: Task, operation: string)
    requires OnTrack(script, t)
    ensures Count(PollCounted(c, script, t).retryFailures, operation) ==
            Count(c.retryFailures, operation)
            + if operation == READ
              then One(Poll(script, t).Finished? && Exhausts(script)) - One(t.Finished? && Exhausts(script)) else 0
  {
    if t.Running? && t.attempts + 1 == MAX_ATTEMPTS && script(t.attempts) == Failed {
      assert Exhausts(script);
    }
  }

  lemma PollRaisesFailures(c: Counters, c': Counters, scripts: seq<Script>, tasks: seq<Task>, i: nat, kind: FailureKind)
    requires i < |tasks| == |scripts| && RisenBy(c, c', scripts, tasks)
    ensures Count(PollCounted(c', scripts[i], tasks[i]).commitmentFailures, FailureLabel(kind)) ==
            Count(c.commitmentFailures, FailureLabel(kind)) + Tally(PolledOnce(scripts, tasks, i), kind)
  {
    TallyUpdate(tasks, i, Poll(scripts[i], tasks[i]), kind);
    PollCountedByKind(c', scripts[i], tasks[i], kind);
  }

  lemma PollRaisesRetries(c: Counters, c': Counters, scripts: seq<Script>, tasks: seq<Task>, i: nat, operation: string)
    requires i < |tasks| == |scripts| && OnTrack(scripts[i], tasks[i]) && RisenBy(c, c', scripts, tasks)
    ensures Count(PollCounted(c', scripts[i], tasks[i]).retryFailures, operation) ==
            Count(c.retryFailures, operation)
            + if operation == READ then TallyExhausted(scripts, PolledOnce(scripts, tasks, i)) else 0
  {
    TallyExhaustedUpdate(scripts, tasks, i, Poll(scripts[i], tasks[i]));
    PollCountedRetries(c', scripts[i], tasks[i], operation);
  }

  lemma PollRises(c: Counters, c': Counters, scripts: seq<Script>, tasks: seq<Task>, i: nat)
    requires i < |tasks| == |scripts| && OnTrack(scripts[i], tasks[i]) && RisenBy(c, c', scripts, tasks)
    ensures RisenBy(c, PollCounted(c', scripts[i], tasks[i]), scripts, PolledOnce(scripts, tasks, i))
  {
    forall kind {
      PollRaisesFailures(c, c', scripts, tasks, i, kind);
    }
    forall operation {
      PollRaisesRetries(c, c', scripts, tasks, i, operation);
    }
  }

  lemma ProgressStep(cell: Option<Registry>, before: Option<Registry>, scripts: seq<Script>, tasks: seq<Task>, i: nat)
    requires i < |tasks| && OnSchedule(cell, before, scripts, tasks)
    ensures OnSchedule(Recorded(cell, PollCounted(Current(cell), scripts[i], tasks[i])), before, scripts,
                     PolledOnce(scripts, tasks, i))
  {
    PollOnTrack(scripts[i], tasks[i]);
    if cell.Some? {
      PollRises(Current(before), Current(cell), scripts, tasks, i);
    }
  }

  /** One poll of one task, counting how it ended. */
  method PollAt(metrics: Metrics, scripts: seq<Script>, tasks: array<Task>, i: nat)
    requires i < tasks.Length == |scripts|
    modifies metrics, tasks
    ensures tasks[..] == PolledOnce(scripts, old(tasks[..]), i)
    ensures metrics.cell ==
            Recorded(old(metrics.cell), PollCounted(Current(old(metrics.cell)), scripts[i], old(tasks[i])))
  {
    if tasks[i].Running? {
      var answer := scripts[i](tasks[i].attempts);
      tasks[i] := Advance(tasks[i], answer);
      match answer {
        case Failed =>
          if tasks[i].Finished? {
            metrics.IncRetryFailure(READ);
          }
        case Answered(_, verdict) =>
          if verdict.Err? && FailureOf(verdict.error).Some? {
            metrics.IncCommitmentFailure(FailureLabel(FailureOf(verdict.error).value));
          }
      }
    }
  }

  method CollectInOrder(tasks: array<Task>) returns (r: Result<seq<PacketCompact>, AttestorError>)
    requires AllFinished(tasks[..])
    ensures r == Collect(Verdicts(tasks[..]))
  {
    ghost var vs := Verdicts(tasks[..]);
    var items := [];
    for i := 0 to tasks.Length
      invariant Collect(vs[..i]) == Ok(items)
    {
      assert vs[..i + 1][..i] == vs[..i];
      assert tasks[i] == tasks[..][i];
      match tasks[i].verdict {
        case Ok(item) => items := items + [item];
        case Err(e) =>
          CollectStops(vs, i + 1);
          return Err(e);
      }
    }
    assert vs[..tasks.Length] == vs;
    return Ok(items);
  }

  /** What follows the first error does not matter. */
  lemma {:induction false} CollectStops(verdicts: seq<Verdict>, n: nat)
    requires n <= |verdicts| && Collect(verdicts[..n]).Err?
    ensures Collect(verdicts) == Collect(verdicts[..n])
  {
    if n == |verdicts| {
      assert verdicts[..n] == verdicts;
    } else {
      var m := |verdicts| - 1;
      assert verdicts[..m][..n] == verdicts[..n];
      CollectStops(verdicts[..m], n);
    }
  }
}
