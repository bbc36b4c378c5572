/** The RPC attempts of a request: in every run each query of each request follows the retry rule. */
module Retrying {
  import opened Wrappers
  import opened Bytes
  import opened World
  import opened Retry
  import opened Metrics
  import opened Service

  /** The attempts made for one query. */
  function Made(attempts: seq<Attempt>, q: Query): nat {
    if attempts == [] then 0
    else Made(attempts[..|attempts| - 1], q) + One(attempts[|attempts| - 1].query == q)
  }

  lemma MadeAppend(attempts: seq<Attempt>, a: Attempt, q: Query)
    ensures Made(attempts + [a], q) == Made(attempts, q) + One(a.query == q)
  {
    assert (attempts + [a])[..|attempts|] == attempts;
  }

  predicate Unanswered(attempts: seq<Attempt>, q: Query) {
    forall x :: 0 <= x < |attempts| && attempts[x].query == q ==> attempts[x].ending == NoReply
  }

  /** At most three attempts, and all but the last without a reply. */
  predicate ByTheRule(attempts: seq<Attempt>, q: Query) {
    && Made(attempts, q) <= MAX_ATTEMPTS
    && forall x, y :: 0 <= x < y < |attempts| && attempts[x].query == attempts[y].query == q ==>
                        attempts[x].ending == NoReply
  }

  /** The query has been tried `n` times without a reply, and may be tried again. */
  predicate Trying(attempts: seq<Attempt>, q: Query, n: nat) {
    Made(attempts, q) == n < MAX_ATTEMPTS && Unanswered(attempts, q)
  }

  ghost predicate Tracked(j: Job) {
    && (forall q :: ByTheRule(j.attempts, q))
    && match j.phase
       case AtGate(n) =>
         Trying(j.attempts, HeightQuery, n) && forall q :: q != HeightQuery ==> Trying(j.attempts, q, 0)
       case AtTimestamp(n) => Trying(j.attempts, TimestampQuery, n)
       case AtPackets(tasks) =>
         forall i :: 0 <= i < |tasks| && tasks[i].Running? ==> Trying(j.attempts, CommitmentQuery(i), tasks[i].attempts)
       case _ => true
  }

  /** One more attempt at a query that may be tried. */
  lemma TriedAgain(attempts: seq<Attempt>, q: Query, n: nat, ending: Ending)
    requires Trying(attempts, q, n) && forall p :: ByTheRule(attempts, p)
    ensures var more := attempts + [Attempt(q, ending)];
            && (forall p :: ByTheRule(more, p))
            && (ending == NoReply && n + 1 < MAX_ATTEMPTS ==> Trying(more, q, n + 1))
            && (forall p, m :: p != q && Trying(attempts, p, m) ==> Trying(more, p, m))
  {
    var a := Attempt(q, ending);
    forall p {
      MadeAppend(attempts, a, p);
    }
    forall p ensures ByTheRule(attempts + [a], p) {
      assert ByTheRule(attempts, p);
    }
  }

  lemma GateTracked(c: Config, w: World, j: Job, k: Counters, reply: Reply)
    requires w.Valid() && Ready(j, ReadHeight(reply)) && Tracked(j)
    ensures Tracked(Reacted(j, ReadHeight(reply), React(c, w, j, k, ReadHeight(reply))))
  {
    TriedAgain(j.attempts, HeightQuery, j.phase.attempts, EndingOf(c, reply));
    forall q | q != HeightQuery ensures Trying(j.attempts + [Attempt(HeightQuery, EndingOf(c, reply))], q, 0) {
      assert Trying(j.attempts, q, 0);
    }
  }

  /** Reading the timestamp either is tried again or is over. */
  lemma TimestampLeads(c: Config, w: World, h: u64, attempts: nat, k: Counters, reply: Reply)
    ensures var phase := TimestampEffect(c, w, h, attempts, k, reply).0;
            || phase.AtSigner? || phase.Resolved?
            || (&& phase == AtTimestamp(attempts + 1) && attempts + 1 < MAX_ATTEMPTS
                && EndingOf(c, BlockReply(w, h, reply)) == NoReply)
  {
  }

  lemma TimestampTracked(c: Config, w: World, j: Job, k: Counters, reply: Reply)
    requires w.Valid() && Ready(j, ReadTimestamp(reply)) && Tracked(j)
    ensures Tracked(Reacted(j, ReadTimestamp(reply), React(c, w, j, k, ReadTimestamp(reply))))
  {
    TimestampLeads(c, w, j.request.height, j.phase.attempts, k, reply);
    TriedAgain(j.attempts, TimestampQuery, j.phase.attempts, EndingOf(c, BlockReply(w, j.request.height, reply)));
    assert j.attempts + [] == j.attempts;
  }

  lemma CommitmentTracked(c: Config, w: World, j: Job, k: Counters, i: nat, reply: Reply)
    requires w.Valid() && Ready(j, ReadCommitment(i, reply)) && Tracked(j)
    ensures Tracked(Reacted(j, ReadCommitment(i, reply), React(c, w, j, k, ReadCommitment(i, reply))))
  {
    var j' := Reacted(j, ReadCommitment(i, reply), React(c, w, j, k, ReadCommitment(i, reply)));
    var tasks := j.phase.tasks;
    TriedAgain(j.attempts, CommitmentQuery(i), tasks[i].attempts, j'.attempts[|j.attempts|].ending);
    forall x | 0 <= x < |tasks| && j'.phase.tasks[x].Running?
      ensures Trying(j'.attempts, CommitmentQuery(x), j'.phase.tasks[x].attempts)
    {
      assert x != i ==> Trying(j.attempts, CommitmentQuery(x), tasks[x].attempts);
    }
  }

  lemma ReactTracked(c: Config, w: World, j: Job, k: Counters, a: Action)
    requires w.Valid() && Ready(j, a) && Tracked(j)
    ensures Tracked(Reacted(j, a, React(c, w, j, k, a)))
  {
    match a
    case ReadHeight(reply) => GateTracked(c, w, j, k, reply);
    case ReadTimestamp(reply) => TimestampTracked(c, w, j, k, reply);
    case ReadCommitment(i, reply) => CommitmentTracked(c, w, j, k, i, reply);
    case _ => assert j.attempts + [] == j.attempts;
  }

  lemma {:induction false} RunTracked(c: Config, w: World, steps: seq<Step>, i: nat)
    requires w.Valid() && i < |Run(c, w, steps).jobs|
    ensures Tracked(Run(c, w, steps).jobs[i])
  {
    var n := |steps| - 1;
    var s := Run(c, w, steps[..n]);
    if i < |s.jobs| {
      RunTracked(c, w, steps[..n], i);
      match steps[n]
      case Act(x, a) =>
        if x == i && Ready(s.jobs[i], a) {
          ReactTracked(c, s.world, s.jobs[i], s.counters, a);
        }
      case _ =>
    }
  }

  /** Each query of each request follows the retry rule, however the requests interleave. */
  lemma RunFollowsRetryRule(c: Config, w: World, steps: seq<Step>, i: nat, q: Query)
    requires w.Valid() && i < |Run(c, w, steps).jobs|
    ensures ByTheRule(Run(c, w, steps).jobs[i].attempts, q)
  {
    RunTracked(c, w, steps, i);
  }

  /** The queries of an operation that were tried three times without a reply. */
  function Exhaustions(attempts: seq<Attempt>, operation: string): nat {
    if attempts == [] then 0
    else
      var n := |attempts| - 1;
      var last := attempts[n];
      Exhaustions(attempts[..n], operation)
      + One(last.ending == NoReply && OperationOf(last.query) == operation
            && Made(attempts, last.query) == MAX_ATTEMPTS)
  }

  lemma ExhaustionsAppend(attempts: seq<Attempt>, a: Attempt, operation: string)
    ensures Exhaustions(attempts + [a], operation) ==
            Exhaustions(attempts, operation)
            + One(a.ending == NoReply && OperationOf(a.query) == operation
                  && Made(attempts, a.query) + 1 == MAX_ATTEMPTS)
  {
    assert (attempts + [a])[..|attempts|] == attempts;
    MadeAppend(attempts, a, a.query);
  }
}
