/** Runs continued: what a later state of the same run keeps. */
module Runs {
  import opened World
  import opened Service
  import opened Soundness

  /** Every later chain of the run keeps what was finalized. */
  lemma {:induction false} RunLater(c: Config, w: World, steps: seq<Step>, n: nat)
    requires Sane(c) && w.Valid() && n <= |steps|
    ensures Later(c, Run(c, w, steps[..n]).world, Run(c, w, steps).world)
  {
    if n == |steps| {
      assert steps[..n] == steps;
      LaterSelf(c, Run(c, w, steps).world);
    } else {
      var m := |steps| - 1;
      assert steps[..m][..n] == steps[..n];
      RunLater(c, w, steps[..m], n);
      RunEvolves(c, w, steps);
      EvolvedLater(c, Run(c, w, steps[..n]).world, Run(c, w, steps[..m]).world, Run(c, w, steps).world);
    }
  }

  lemma RunEvolves(c: Config, w: World, steps: seq<Step>)
    requires w.Valid() && steps != []
    ensures Evolved(c, Run(c, w, steps[..|steps| - 1]).world, Run(c, w, steps).world)
  {
    EvolvesByStep(c, Run(c, w, steps[..|steps| - 1]), steps[|steps| - 1]);
  }

  /** The chain moves by events only. */
  ghost predicate Evolved(c: Config, w: World, w': World)
    requires w.Valid()
  {
    w' == w || exists e :: w' == Evolve(c.maxReorg, w, e)
  }

  lemma EvolvesByStep(c: Config, s: Server, step: Step)
    requires s.world.Valid()
    ensures Evolved(c, s.world, Next(c, s, step).world)
  {
  }

  lemma EvolvedLater(c: Config, past: World, w: World, w': World)
    requires Sane(c) && Later(c, past, w) && Evolved(c, w, w')
    ensures Later(c, past, w')
  {
    if w' != w {
      var e :| w' == Evolve(c.maxReorg, w, e);
      EvolveKeeps(c.chain, c.maxReorg, w, e);
      LaterTransitive(c, past, w, w');
    }
  }

  lemma LaterSelf(c: Config, w: World)
    requires w.Valid()
    ensures Later(c, w, w)
  {
    FinalizedExists(c.chain, w);
  }

  lemma LaterTransitive(c: Config, w: World, w': World, w'': World)
    requires Later(c, w, w') && Later(c, w', w'')
    ensures Later(c, w, w'')
  {
    var n := Finalized(c.chain, w);
    KeepsBelow(w', w'', Finalized(c.chain, w'), n);
  }
}
