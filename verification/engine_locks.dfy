/** The engine and the locks together: `run_graph` asks the lock manager which resources are held. */
module EngineLocks {
  import opened TaskModel
  import opened EngineModel
  import opened EngineTheorems
  import ResourceLocks

  /**
   If the owners at the engine's last poll are those of a lock manager all of whose frames have
   finished, the run has settled, and the blocked tasks are the ones with a failed dependency.
   */
  lemma RunSettlesWhenFramesFinish(g: Graph, env: Environment, round: nat, s: ResourceLocks.State)
    requires Sound(g) && NothingRunning(g) && Acyclic(Dependencies(g))
    requires ResourceLocks.Safe(s) && ResourceLocks.AllFinished(s)
    requires env.held(round + Run(g, env, round).rounds) == s.owners.Keys
    ensures
      var final := Run(g, env, round).final;
      Settled(final) && forall n | n in final :: final[n].status.Blocked? <==> HasFailedDependency(final, n)
  {
    hide Run, Acyclic, Sound, NothingRunning, ResourceLocks.Safe;
    ResourceLocks.FinishedFramesHoldNothing(s);
    RunSettles(g, env, round);
  }

  /** That is so when the frames made all their steps, from any safe state and in any interleaving. */
  lemma RunSettlesAfterFrames(g: Graph, env: Environment, round: nat, s: ResourceLocks.State,
                              steps: seq<ResourceLocks.Step>)
    requires Sound(g) && NothingRunning(g) && Acyclic(Dependencies(g))
    requires ResourceLocks.Safe(s) && ResourceLocks.IsRun(s, steps)
    requires forall step | step in steps :: step.Take? || step.Leave?
    requires |steps| == ResourceLocks.TotalLeft(s.frames)
    requires env.held(round + Run(g, env, round).rounds) == ResourceLocks.After(s, steps).owners.Keys
    ensures Settled(Run(g, env, round).final)
  {
    hide Run, Acyclic, Sound, NothingRunning, ResourceLocks.Safe;
    ResourceLocks.EveryFrameFinishes(s, steps);
    ResourceLocks.RunsAreSafe(s, steps);
    RunSettlesWhenFramesFinish(g, env, round, ResourceLocks.After(s, steps));
  }
}
