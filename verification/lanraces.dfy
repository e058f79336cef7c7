/** How the shared copy can get older when the lock is not held: what every run keeps,
    with failed lock attempts, expired locks and failed reads. */
module LanRaces {
  import opened Versions
  import opened Lan

  /** Node n stands between its re-check of k and its Put. */
  predicate Poised(s: State, n: Node, k: string) {
    && n in s.nodes && s.nodes[n].phase.Committing? && s.nodes[n].phase.key == k
    && k in s.nodes[n].tick.locals
  }

  /** What it is about to put is older than the cluster copy. */
  predicate Stale(s: State, n: Node, k: string) {
    && Poised(s, n, k) && k in s.cluster
    && Newer(s.cluster[k].version, s.nodes[n].tick.locals[k].version)
  }

  /** The step is the re-check of k by node n, and its read fails. */
  predicate MissesRecheck(s: State, step: Step, n: Node, k: string) {
    step == Recheck(n, false) && n in s.nodes && s.nodes[n].phase.Locked? && s.nodes[n].phase.key == k
  }

  /** The step is another node's Put of k. */
  predicate Overtakes(s: State, step: Step, n: Node, k: string) {
    PutsAt(s, step, k) && step.n != n
  }

  /** In every state, no step removes a key from the cluster, and the version at k falls
      exactly at the Put of a node that is poised with an older record. */
  lemma ClusterFallsIff(s: State, step: Step, k: string)
    requires k in s.cluster
    ensures var s' := Next(s, step);
            && k in s'.cluster
            && (Newer(s.cluster[k].version, s'.cluster[k].version) <==> PutsAt(s, step, k) && Stale(s, step.n, k))
  {
    NewerTrichotomy(s.cluster[k].version, s.cluster[k].version);
  }

  /** A poised node's record is stale because it was so before, because its re-check
      could not read, or because another node has just put. */
  lemma StaleOrigin(s: State, step: Step, n: Node, k: string)
    requires Stale(Next(s, step), n, k)
    ensures Stale(s, n, k) || MissesRecheck(s, step, n, k) || (Poised(s, n, k) && Overtakes(s, step, n, k))
  {
    if Enabled(s, step) && step.n == n {
      MovedPoised(s, step, k);
    }
  }

  /** A node becomes poised by its re-check: one that cannot read, or that finds nothing
      or something older. */
  lemma MovedPoised(s: State, step: Step, k: string)
    requires Enabled(s, step) && Stale(Next(s, step), step.n, k)
    ensures Stale(s, step.n, k) || MissesRecheck(s, step, step.n, k)
  {
    var n := step.n;
    var ns := s.nodes[n];
    if step.Recheck? && ns.phase.Locked? && step.ok {
      NewerTrichotomy(s.cluster[k].version, ns.tick.locals[k].version);
    }
  }

  ghost predicate StaysPoised(s0: State, steps: seq<Step>, j: nat, n: Node, k: string) {
    forall i :: j <= i <= |steps| ==> Poised(Run(s0, steps[..i]), n, k)
  }

  lemma StaysPoisedExtends(s0: State, steps: seq<Step>, j: nat, n: Node, k: string)
    requires steps != [] && j < |steps| && StaysPoised(s0, steps[..|steps| - 1], j, n, k) && Poised(Run(s0, steps), n, k)
    ensures StaysPoised(s0, steps, j, n, k)
  {
    var front := steps[..|steps| - 1];
    assert steps[..|steps|] == steps;
    forall i | j <= i <= |steps| ensures Poised(Run(s0, steps[..i]), n, k) {
      if i < |steps| {
        assert front[..i] == steps[..i];
      }
    }
  }

  lemma StaysPoisedStart(s0: State, steps: seq<Step>, n: Node, k: string)
    requires Poised(Run(s0, steps), n, k)
    ensures StaysPoised(s0, steps, |steps|, n, k)
  {
    assert steps[..|steps|] == steps;
  }

  /** A stale record about to be put has a history: at step j the node's re-check failed
      to read, or another node put while it was already poised, and it has been poised
      ever since. */
  lemma {:induction false} StaleMeansRace(s0: State, steps: seq<Step>, n: Node, k: string) returns (j: nat)
    requires Init(s0) && Stale(Run(s0, steps), n, k)
    ensures j < |steps| && StaysPoised(s0, steps, j + 1, n, k)
    ensures var s := Run(s0, steps[..j]);
            MissesRecheck(s, steps[j], n, k) || (Poised(s, n, k) && Overtakes(s, steps[j], n, k))
  {
    hide Next;
    if steps == [] {
      assert false;
    }
    var front, last := steps[..|steps| - 1], steps[|steps| - 1];
    var s := Run(s0, front);
    StaleOrigin(s, last, n, k);
    if MissesRecheck(s, last, n, k) || (Poised(s, n, k) && Overtakes(s, last, n, k)) {
      j := |front|;
      StaysPoisedStart(s0, steps, n, k);
    } else {
      j := StaleMeansRace(s0, front, n, k);
      assert front[..j] == steps[..j];
      StaysPoisedExtends(s0, steps, j + 1, n, k);
    }
  }

  /** Whenever the cluster copy gets older, in any run, the step is a Put whose re-check
      failed to read at an earlier step j, or that another node's Put at step j overtook. */
  lemma FallMeansRace(s0: State, steps: seq<Step>, step: Step, k: string) returns (j: nat)
    requires Init(s0)
    requires var s := Run(s0, steps); k in s.cluster && Newer(s.cluster[k].version, Next(s, step).cluster[k].version)
    ensures PutsAt(Run(s0, steps), step, k)
    ensures j < |steps| && StaysPoised(s0, steps, j + 1, step.n, k)
    ensures var s := Run(s0, steps[..j]);
            MissesRecheck(s, steps[j], step.n, k) || (Poised(s, step.n, k) && Overtakes(s, steps[j], step.n, k))
  {
    ClusterFallsIff(Run(s0, steps), step, k);
    j := StaleMeansRace(s0, steps, step.n, k);
  }
}
