/** What the nodes serve once the shared copy has settled, over interleaved ticks. */
module LanApplied {
  import opened Versions
  import opened Lan
  import opened LanRaces
  import opened LanRounds

  /** The copy of k is at least as new as every local one, and nobody is about to put. */
  ghost predicate Steady(s: State, k: string) {
    && Present(s) && k in s.cluster
    && (forall n :: n in s.nodes && k in s.nodes[n].local ==> AtMost(s.nodes[n].local[k].version, s.cluster[k].version))
    && (forall n :: !Poised(s, n, k))
  }

  /** Snapshots and applies work as well. */
  predicate GoodStep(step: Step) {
    PlainStep(step) && (step.Visit? || step.Apply? ==> step.ok)
  }

  predicate Good(steps: seq<Step>) {
    forall i :: 0 <= i < |steps| ==> GoodStep(steps[i])
  }

  lemma GoodIsPlain(steps: seq<Step>)
    requires Good(steps)
    ensures Plain(steps)
  {
  }

  lemma SteadyMoved(s: State, step: Step, k: string)
    requires Steady(s, k) && PlainStep(step) && Enabled(s, step)
    ensures !Poised(Next(s, step), step.n, k)
  {
    assert !Poised(s, step.n, k);
  }

  lemma SteadyStep(s: State, step: Step, k: string)
    requires Steady(s, k) && PlainStep(step)
    ensures Steady(Next(s, step), k) && Lookup(Next(s, step).cluster, k) == Lookup(s.cluster, k)
  {
    hide Moved, ClusterAfter, LocksAfter;
    var t := Next(s, step);
    SameFilesStep(s, s, step);
    CopyOrigin(s, step, k);
    if Enabled(s, step) {
      assert !Poised(s, step.n, k);
      LocalsMoved(s, step);
      SteadyMoved(s, step, k);
    }
    forall n ensures !Poised(t, n, k) {
      assert !Poised(s, n, k);
    }
  }

  /** The tick of node n in progress has seen r as the copy of k, if it has looked. */
  predicate SawCopy(s: State, n: Node, k: string, r: Record) {
    && n in s.nodes && (!s.nodes[n].phase.Idle? ==> s.nodes[n].tick.locals == s.nodes[n].local)
    && (!s.nodes[n].phase.Idle? && !s.nodes[n].phase.Visiting? && s.nodes[n].phase.key == k ==> s.nodes[n].phase.seen == Some(r))
  }

  /** It still has k to deal with, or has applied r. */
  predicate OnTheWay(s: State, n: Node, k: string, r: Record) {
    && n in s.nodes
    && (Lookup(s.nodes[n].applied, k) == Some(r) || (!s.nodes[n].phase.Idle? && k in s.nodes[n].tick.todo))
  }

  lemma OnTheWayStep(s: State, step: Step, n: Node, k: string, r: Record)
    requires Steady(s, k) && s.cluster[k] == r && GoodStep(step) && SawCopy(s, n, k, r) && OnTheWay(s, n, k, r)
    ensures SawCopy(Next(s, step), n, k, r) && OnTheWay(Next(s, step), n, k, r)
  {
    hide Present;
    if Enabled(s, step) && step.n == n {
      OnTheWayMoved(s, step, k, r);
    }
  }

  lemma OnTheWayMoved(s: State, step: Step, k: string, r: Record)
    requires Enabled(s, step) && k in s.cluster && s.cluster[k] == r && GoodStep(step)
    requires SawCopy(s, step.n, k, r) && OnTheWay(s, step.n, k, r)
    requires k in s.nodes[step.n].local ==> AtMost(s.nodes[step.n].local[k].version, r.version)
    ensures SawCopy(Next(s, step), step.n, k, r) && OnTheWay(Next(s, step), step.n, k, r)
  {
  }

  /** Node n begins a tick that will visit k. */
  predicate BeginsFor(s: State, step: Step, n: Node, k: string) {
    Begins(s, step, n) && (k in s.nodes[n].local || k in step.listed)
  }

  lemma BeginsOnTheWay(s: State, step: Step, n: Node, k: string, r: Record)
    requires BeginsFor(s, step, n, k)
    ensures SawCopy(Next(s, step), n, k, r) && OnTheWay(Next(s, step), n, k, r)
  {
  }

  ghost predicate HasBegunFor(s: State, steps: seq<Step>, n: Node, k: string) {
    exists i :: 0 <= i < |steps| && BeginsFor(Run(s, steps[..i]), steps[i], n, k)
  }

  lemma HasBegunForSnoc(s: State, steps: seq<Step>, n: Node, k: string)
    requires steps != [] && HasBegunFor(s, steps, n, k)
    ensures var front, last := steps[..|steps| - 1], steps[|steps| - 1];
            HasBegunFor(s, front, n, k) || BeginsFor(Run(s, front), last, n, k)
  {
    hide Run, BeginsFor;
    var front := steps[..|steps| - 1];
    var i :| 0 <= i < |steps| && BeginsFor(Run(s, steps[..i]), steps[i], n, k);
    if i < |front| {
      assert front[..i] == steps[..i] && front[i] == steps[i];
    }
  }

  lemma {:induction false} ServedRun(s: State, steps: seq<Step>, n: Node, k: string, r: Record)
    requires Steady(s, k) && s.cluster[k] == r && Good(steps)
    ensures var t := Run(s, steps);
            && Steady(t, k) && t.cluster[k] == r
            && (HasBegunFor(s, steps, n, k) ==> SawCopy(t, n, k, r) && OnTheWay(t, n, k, r))
  {
    if steps != [] {
      hide Run, Next, SawCopy, OnTheWay, HasBegunFor, BeginsFor;
      var front, last := steps[..|steps| - 1], steps[|steps| - 1];
      ServedRun(s, front, n, k, r);
      var mid := Run(s, front);
      RunLast(s, steps);
      SteadyStep(mid, last, k);
      if HasBegunFor(s, steps, n, k) {
        HasBegunForSnoc(s, steps, n, k);
        if BeginsFor(mid, last, n, k) {
          BeginsOnTheWay(mid, last, n, k, r);
        } else {
          OnTheWayStep(mid, last, n, k, r);
        }
      }
    }
  }

  /** A node that begins a tick with k in it and is idle at the end serves the shared copy. */
  lemma TickServes(s: State, steps: seq<Step>, n: Node, k: string)
    requires Steady(s, k) && Good(steps) && HasBegunFor(s, steps, n, k)
    requires n in Run(s, steps).nodes && Run(s, steps).nodes[n].phase.Idle?
    ensures var t := Run(s, steps);
            k in t.cluster && t.cluster[k] == s.cluster[k] && Lookup(t.nodes[n].applied, k) == Some(s.cluster[k])
  {
    hide Run;
    ServedRun(s, steps, n, k, s.cluster[k]);
  }

  /** A locked round leaves the copy steady. */
  lemma LockedRoundSteady(s: State, steps: seq<Step>, k: string)
    requires Resting(s) && Orderly(steps) && Plain(steps) && EveryoneTicks(s, steps) && k in Run(s, steps).cluster
    ensures Steady(Run(s, steps), k)
  {
    hide Run;
    var t := Run(s, steps);
    OriginRun(s, steps, k);
    LockedRoundConverges(s, steps, k);
    LockedRun(s, steps);
    forall n | n in t.nodes && k in t.nodes[n].local ensures AtMost(t.nodes[n].local[k].version, t.cluster[k].version) {
      assert FromSomewhere(s, k, s.nodes[n].local[k]);
    }
    forall n ensures !Poised(t, n, k) {
      if n in t.nodes {
        assert NodeOrderly(t, n);
      }
    }
  }

  /** Rounds without the lock that end at rest leave it steady too. */
  lemma RestingSteady(s: State, k: string)
    requires Resting(s) && k in s.cluster && Lagging(s, k) == {}
    ensures Steady(s, k)
  {
    forall n | n in s.nodes && k in s.nodes[n].local ensures AtMost(s.nodes[n].local[k].version, s.cluster[k].version) {
      NotLagging(s, n, k);
    }
  }

  /** Convergence of what is served, over all interleavings: after a locked round and a
      second one in which every node visits k, every node serves the same record, the
      greatest version that was anywhere at the start. */
  lemma TwoLockedRoundsServe(s: State, one: seq<Step>, two: seq<Step>, k: string)
    requires Resting(s) && Orderly(one) && Plain(one) && EveryoneTicks(s, one) && k in Run(s, one).cluster
    requires var t := Run(Run(s, one), two);
             Good(two) && Resting(t) && forall n :: n in t.nodes ==> HasBegunFor(Run(s, one), two, n, k)
    ensures var t := Run(Run(s, one), two);
            && k in t.cluster && Greatest(s, k, t.cluster[k].version)
            && forall n :: n in t.nodes ==> Lookup(t.nodes[n].applied, k) == Some(t.cluster[k])
  {
    hide Run, HasBegunFor, EveryoneTicks;
    var mid := Run(s, one);
    var t := Run(mid, two);
    LockedRoundConverges(s, one, k);
    LockedRoundSteady(s, one, k);
    ServedRun(mid, two, 0, k, mid.cluster[k]);
    forall n | n in t.nodes ensures Lookup(t.nodes[n].applied, k) == Some(t.cluster[k]) {
      TickServes(mid, two, n, k);
    }
  }
}
