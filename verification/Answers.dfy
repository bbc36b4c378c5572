/** One signature per answered request, none for a failed one. */
module Answers {
  import opened Wrappers
  import opened World
  import opened PacketLists
  import opened Service
  import opened Soundness

  predicate Attested(j: Job) {
    (j.phase.Resolved? || j.phase.Closed?) && j.phase.outcome.Ok? && j.phase.outcome.value.AttestationResponse?
  }

  /** The log entry of a request. */
  predicate SignedAt(s: Server, i: nat, n: nat) {
    n < |s.log| && s.log[n].job == i
  }

  /** The log has exactly one entry for each request answered with an attestation, and no other. */
  ghost predicate OneSignatureEach(s: Server) {
    && (forall n, m :: 0 <= n < m < |s.log| ==> s.log[n].job != s.log[m].job)
    && (forall n :: 0 <= n < |s.log| ==> s.log[n].job < |s.jobs| && Attested(s.jobs[s.log[n].job]))
    && (forall i :: 0 <= i < |s.jobs| && Attested(s.jobs[i]) ==> exists n: nat :: SignedAt(s, i, n))
  }

  /** A request is attested by signing and by nothing else. */
  lemma AttestedBySigning(c: Config, w: World, j: Job, k: Metrics.Counters, a: Action)
    requires w.Valid() && Ready(j, a)
    ensures var e := React(c, w, j, k, a);
            Attested(Reacted(j, a, e)) <==> Attested(j) || e.signed.Some?
    ensures React(c, w, j, k, a).signed.Some? ==> !Attested(j)
  {
  }

  /** The new log still has no request twice. */
  lemma ActDistinct(c: Config, s: Server, i: nat, a: Action)
    requires s.world.Valid() && OneSignatureEach(s) && i < |s.jobs| && Ready(s.jobs[i], a)
    ensures var s' := Acted(c, s, i, a);
            forall n, m :: 0 <= n < m < |s'.log| ==> s'.log[n].job != s'.log[m].job
  {
    AttestedBySigning(c, s.world, s.jobs[i], s.counters, a);
  }

  /** And none that is not attested. */
  lemma ActLogged(c: Config, s: Server, i: nat, a: Action)
    requires s.world.Valid() && OneSignatureEach(s) && i < |s.jobs| && Ready(s.jobs[i], a)
    ensures var s' := Acted(c, s, i, a);
            forall n :: 0 <= n < |s'.log| ==> s'.log[n].job < |s'.jobs| && Attested(s'.jobs[s'.log[n].job])
  {
    AttestedBySigning(c, s.world, s.jobs[i], s.counters, a);
  }

  lemma ActOnce(c: Config, s: Server, i: nat, a: Action)
    requires s.world.Valid() && OneSignatureEach(s) && i < |s.jobs| && Ready(s.jobs[i], a)
    ensures OneSignatureEach(Acted(c, s, i, a))
  {
    var s' := Acted(c, s, i, a);
    ActDistinct(c, s, i, a);
    ActLogged(c, s, i, a);
    forall m | 0 <= m < |s'.jobs| && Attested(s'.jobs[m]) ensures exists n: nat :: SignedAt(s', m, n) {
      ActFound(c, s, i, a, m);
    }
  }

  lemma ActFound(c: Config, s: Server, i: nat, a: Action, m: nat)
    requires s.world.Valid() && OneSignatureEach(s) && i < |s.jobs| && Ready(s.jobs[i], a)
    requires m < |s.jobs| && Attested(Acted(c, s, i, a).jobs[m])
    ensures exists n: nat :: SignedAt(Acted(c, s, i, a), m, n)
  {
    var s' := Acted(c, s, i, a);
    AttestedBySigning(c, s.world, s.jobs[i], s.counters, a);
    if Attested(s.jobs[m]) {
      var n: nat :| SignedAt(s, m, n);
      assert SignedAt(s', m, n);
    } else {
      assert SignedAt(s', m, |s.log|);
    }
  }

  /** More requests and another world do not matter to the log. */
  lemma KeepsOnce(s: Server, s': Server)
    requires OneSignatureEach(s) && s'.log == s.log && s.jobs <= s'.jobs
    requires forall i :: |s.jobs| <= i < |s'.jobs| ==> !Attested(s'.jobs[i])
    ensures OneSignatureEach(s')
  {
    forall i | 0 <= i < |s'.jobs| && Attested(s'.jobs[i]) ensures exists n: nat :: SignedAt(s', i, n) {
      var n: nat :| SignedAt(s, i, n);
      assert SignedAt(s', i, n);
    }
  }

  lemma NextOnce(c: Config, s: Server, step: Step)
    requires s.world.Valid() && OneSignatureEach(s)
    ensures OneSignatureEach(Next(c, s, step))
  {
    match step
    case ChainStep(_) => KeepsOnce(s, Next(c, s, step));
    case Arrive(_) => KeepsOnce(s, Next(c, s, step));
    case Act(i, a) =>
      if i < |s.jobs| && Ready(s.jobs[i], a) {
        ActOnce(c, s, i, a);
      }
  }

  /** In every run, whether or not the chain settles. */
  lemma {:induction false} RunOnce(c: Config, w: World, steps: seq<Step>)
    requires w.Valid()
    ensures OneSignatureEach(Run(c, w, steps))
  {
    if steps != [] {
      RunOnce(c, w, steps[..|steps| - 1]);
      NextOnce(c, Run(c, w, steps[..|steps| - 1]), steps[|steps| - 1]);
    }
  }

  /** The log is append-only, and an answer is final. */
  ghost predicate Continues(s: Server, s': Server) {
    && s.log <= s'.log
    && |s.jobs| <= |s'.jobs|
    && (forall i :: 0 <= i < |s.jobs| ==>
          && s'.jobs[i].request == s.jobs[i].request
          && (s.jobs[i].phase.Resolved? || s.jobs[i].phase.Closed? ==>
                HasAnswer(s'.jobs[i], s.jobs[i].phase.outcome)))
  }

  lemma NextContinues(c: Config, s: Server, step: Step)
    requires s.world.Valid()
    ensures Continues(s, Next(c, s, step))
  {
    if step.Act? && step.job < |s.jobs| && Ready(s.jobs[step.job], step.action) {
      assert s.jobs[step.job].phase.Resolved? ==> step.action.Close?;
    }
  }

  lemma ContinuesTransitive(s: Server, s': Server, s'': Server)
    requires Continues(s, s') && Continues(s', s'')
    ensures Continues(s, s'')
  {
    forall i | 0 <= i < |s.jobs| && (s.jobs[i].phase.Resolved? || s.jobs[i].phase.Closed?)
      ensures HasAnswer(s''.jobs[i], s.jobs[i].phase.outcome)
    {
      assert HasAnswer(s'.jobs[i], s.jobs[i].phase.outcome);
    }
  }

  lemma {:induction false} RunContinues(c: Config, w: World, steps: seq<Step>, n: nat)
    requires w.Valid() && n <= |steps|
    ensures Continues(Run(c, w, steps[..n]), Run(c, w, steps))
  {
    if n == |steps| {
      assert steps[..n] == steps;
    } else {
      var m := |steps| - 1;
      assert steps[..m][..n] == steps[..n];
      RunContinues(c, w, steps[..m], n);
      NextContinues(c, Run(c, w, steps[..m]), steps[m]);
      ContinuesTransitive(Run(c, w, steps[..n]), Run(c, w, steps[..m]), Run(c, w, steps));
    }
  }

  /** Request `i` was answered by log entry `n`: its height and packets, the attested bytes, and their signature. */
  ghost predicate AnsweredBy(c: Config, s: Server, i: nat, n: nat) {
    && i < |s.jobs| && SignedAt(s, i, n)
    && var m := s.log[n].claim;
       && ClaimFor(s.jobs[i].request, m)
       && HasAnswer(s.jobs[i], Ok(ResponseTo(c, m)))
       && s.log[n].signature == SignedBy(c, m)
       && (m.PacketClaim? ==> |m.items| == |m.packets| == |s.jobs[i].request.packets|)
  }

  lemma EntryAnswers(c: Config, s: Server, n: nat)
    requires s.world.Valid() && n < |s.log| && EntrySound(c, s, s.log[n])
    ensures AnsweredBy(c, s, s.log[n].job, n)
  {
    var r := s.jobs[s.log[n].job].request;
    if r.PacketRequest? {
      DecodeAllExact(r.packets);
    }
  }

  /** Every attested request was answered by exactly one log entry. */
  lemma ResponseMatchesRequest(c: Config, w: World, steps: seq<Step>, i: nat)
    requires Sane(c) && w.Valid()
    requires i < |Run(c, w, steps).jobs| && Attested(Run(c, w, steps).jobs[i])
    ensures exists n: nat :: AnsweredBy(c, Run(c, w, steps), i, n)
    ensures forall n: nat, m: nat :: SignedAt(Run(c, w, steps), i, n) && SignedAt(Run(c, w, steps), i, m) ==> n == m
  {
    var s := Run(c, w, steps);
    RunSound(c, w, steps);
    RunOnce(c, w, steps);
    var n: nat :| SignedAt(s, i, n);
    EntryAnswers(c, s, n);
  }
}
