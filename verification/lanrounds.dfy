/** Convergence of the shared store over interleaved ticks: one round under the lock, and
    without it as many rounds as there are nodes with something newer. */
module LanRounds {
  import opened Versions
  import opened Lan

  /** Files do not change, re-checks read and puts succeed. Locks may fail or expire, and
      snapshots and applies may fail. */
  predicate PlainStep(step: Step) {
    !step.Edit? && (step.Recheck? || step.Put? ==> step.ok)
  }

  predicate Plain(steps: seq<Step>) {
    forall i :: 0 <= i < |steps| ==> PlainStep(steps[i])
  }

  predicate Resting(s: State) {
    forall n :: n in s.nodes ==> s.nodes[n].phase.Idle?
  }

  /** What the cluster copy is to reach: some version, or something beyond a record. */
  datatype Goal = AtLeast(v: Version) | Beyond(base: Option<Record>)

  predicate Reaches(v: Version, g: Goal) {
    match g
    case AtLeast(w) => AtMost(w, v)
    case Beyond(base) => base.Some? ==> Newer(v, base.value.version)
  }

  predicate Met(m: map<string, Record>, k: string, g: Goal) {
    k in m && Reaches(m[k].version, g)
  }

  lemma ReachesUp(v: Version, w: Version, g: Goal)
    requires Reaches(v, g) && AtMost(v, w)
    ensures Reaches(w, g)
  {
    match g
    case AtLeast(u) => AtMostTransitive(u, v, w);
    case Beyond(base) =>
      if base.Some? {
        NewerTrichotomy(w, base.value.version);
        if !Newer(w, base.value.version) {
          AtMostTransitive(v, w, base.value.version);
          assert false;
        }
      }
  }

  /** The node works on its present files, and once it has seen or settled a version of k
      that reaches the goal, the goal is met. */
  predicate Towards(s: State, n: Node, k: string, g: Goal) {
    && n in s.nodes
    && var ns := s.nodes[n];
    && (!ns.phase.Idle? ==> ns.tick.locals == ns.local)
    && (SeenBy(ns.phase).Some? && ns.phase.key == k && Reaches(SeenBy(ns.phase).value.version, g) ==> Met(s.cluster, k, g))
    && (ns.phase.Contending? || ns.phase.Locked? || ns.phase.Committing? ==> ns.phase.key in ns.tick.locals)
    && (ns.phase.Releasing? || ns.phase.Applying? ==>
        ns.phase.key == k && k in ns.tick.locals && Reaches(ns.tick.locals[k].version, g) ==> Met(s.cluster, k, g))
  }

  lemma TowardsStay(s: State, step: Step, n: Node, k: string, g: Goal)
    requires Towards(s, n, k, g) && !(Enabled(s, step) && step.n == n)
    requires Met(s.cluster, k, g) ==> Met(Next(s, step).cluster, k, g)
    ensures Towards(Next(s, step), n, k, g)
  {
    assert Next(s, step).nodes[n] == s.nodes[n];
  }

  lemma TowardsMove(s: State, step: Step, k: string, g: Goal)
    requires PlainStep(step) && Enabled(s, step) && Towards(s, step.n, k, g)
    requires Met(s.cluster, k, g) ==> Met(Next(s, step).cluster, k, g)
    ensures Towards(Next(s, step), step.n, k, g)
  {
    hide Reaches;
    match step
    case Check(_) => TowardsCheck(s, step, k, g);
    case Recheck(_, _) => TowardsRecheck(s, step, k, g);
    case Visit(_, _, _) => TowardsVisit(s, step, k, g);
    case Put(_, _) => TowardsPut(s, step, k, g);
    case _ =>
  }

  lemma TowardsVisit(s: State, step: Step, k: string, g: Goal)
    requires step.Visit? && Enabled(s, step) && Towards(s, step.n, k, g)
    ensures Towards(Next(s, step), step.n, k, g)
  {
    hide Reaches;
  }

  lemma TowardsPut(s: State, step: Step, k: string, g: Goal)
    requires step.Put? && step.ok && Enabled(s, step) && Towards(s, step.n, k, g)
    requires Met(s.cluster, k, g) ==> Met(Next(s, step).cluster, k, g)
    ensures Towards(Next(s, step), step.n, k, g)
  {
    hide Reaches;
  }

  lemma TowardsCheck(s: State, step: Step, k: string, g: Goal)
    requires step.Check? && Enabled(s, step) && Towards(s, step.n, k, g)
    ensures Towards(Next(s, step), step.n, k, g)
  {
    hide Reaches;
    var ns := s.nodes[step.n];
    if ns.phase.Deciding? && ns.phase.key == k && k in ns.tick.locals && ns.phase.seen.Some? {
      Settles(ns.tick.locals[k].version, ns.phase.seen.value.version, g);
    }
  }

  lemma TowardsRecheck(s: State, step: Step, k: string, g: Goal)
    requires step.Recheck? && step.ok && Enabled(s, step) && Towards(s, step.n, k, g)
    ensures Towards(Next(s, step), step.n, k, g)
  {
    hide Reaches;
    var ns := s.nodes[step.n];
    if ns.phase.Locked? && ns.phase.key == k && k in s.cluster {
      Settles(ns.tick.locals[k].version, s.cluster[k].version, g);
    }
  }

  lemma Settles(v: Version, w: Version, g: Goal)
    ensures Reaches(v, g) && AtMost(v, w) ==> Reaches(w, g)
  {
    if Reaches(v, g) && AtMost(v, w) {
      ReachesUp(v, w, g);
    }
  }

  lemma TowardsStep(s: State, step: Step, n: Node, k: string, g: Goal)
    requires PlainStep(step) && Towards(s, n, k, g)
    requires Met(s.cluster, k, g) ==> Met(Next(s, step).cluster, k, g)
    ensures Towards(Next(s, step), n, k, g)
  {
    if Enabled(s, step) && step.n == n {
      TowardsMove(s, step, k, g);
    } else {
      TowardsStay(s, step, n, k, g);
    }
  }

  /** The tick of node n that has begun has k before it, or the goal is met. */
  predicate Underway(s: State, n: Node, k: string, g: Goal) {
    Met(s.cluster, k, g) || (n in s.nodes && !s.nodes[n].phase.Idle? && k in s.nodes[n].tick.todo)
  }

  lemma UnderwayStep(s: State, step: Step, n: Node, k: string, g: Goal)
    requires PlainStep(step) && Towards(s, n, k, g) && Underway(s, n, k, g)
    requires k in s.nodes[n].local && Reaches(s.nodes[n].local[k].version, g)
    requires Met(s.cluster, k, g) ==> Met(Next(s, step).cluster, k, g)
    ensures Underway(Next(s, step), n, k, g)
  {
  }

  predicate Begins(s: State, step: Step, n: Node) {
    step.BeginTick? && step.n == n && n in s.nodes && s.nodes[n].phase.Idle?
  }

  ghost predicate HasBegun(s: State, steps: seq<Step>, n: Node) {
    exists i :: 0 <= i < |steps| && Begins(Run(s, steps[..i]), steps[i], n)
  }

  /** Node n begins a tick in the run and has finished it at its state j. */
  ghost predicate FinishesBy(s: State, steps: seq<Step>, n: Node, j: nat) {
    && j <= |steps| && HasBegun(s, steps[..j], n)
    && n in Run(s, steps[..j]).nodes && Run(s, steps[..j]).nodes[n].phase.Idle?
  }

  ghost predicate EveryoneTicks(s: State, steps: seq<Step>) {
    forall n :: n in s.nodes ==> exists j: nat :: FinishesBy(s, steps, n, j)
  }

  lemma HasBegunSnoc(s: State, steps: seq<Step>, n: Node)
    requires steps != [] && HasBegun(s, steps, n)
    ensures var front, last := steps[..|steps| - 1], steps[|steps| - 1];
            HasBegun(s, front, n) || Begins(Run(s, front), last, n)
  {
    hide Run, Begins;
    var front := steps[..|steps| - 1];
    var i :| 0 <= i < |steps| && Begins(Run(s, steps[..i]), steps[i], n);
    if i < |front| {
      assert front[..i] == steps[..i] && front[i] == steps[i];
    }
  }

  lemma HasBegunMore(s: State, steps: seq<Step>, j: nat, n: Node)
    requires j <= |steps| && HasBegun(s, steps[..j], n)
    ensures HasBegun(s, steps, n)
  {
    hide Run, Begins;
    var i :| 0 <= i < j && Begins(Run(s, steps[..j][..i]), steps[..j][i], n);
    assert steps[..j][..i] == steps[..i] && steps[..j][i] == steps[i];
  }

  lemma RunLast(s: State, steps: seq<Step>)
    requires steps != []
    ensures Run(s, steps) == Next(Run(s, steps[..|steps| - 1]), steps[|steps| - 1])
  {
  }

  predicate SameFiles(a: State, b: State) {
    && a.nodes.Keys == b.nodes.Keys
    && forall n :: n in a.nodes ==> a.nodes[n].local == b.nodes[n].local
  }

  /** A tick that begins reads the node's present files. */
  lemma LocalsMoved(s: State, step: Step)
    requires Enabled(s, step) && !step.Edit?
    ensures var ns := s.nodes[step.n]; var ns' := Moved(s, ns, step);
            ns'.local == ns.local && (ns'.tick.locals == ns.local || (ns'.tick.locals == ns.tick.locals && (ns.phase.Idle? ==> ns'.phase.Idle?)))
  {
  }

  lemma SameFilesStep(a: State, s: State, step: Step)
    requires SameFiles(a, s) && !step.Edit?
    ensures SameFiles(a, Next(s, step))
  {
    hide Moved, ClusterAfter, LocksAfter;
    if Enabled(s, step) {
      LocalsMoved(s, step);
    }
  }

  /** Once met, the goal stays met: over the whole run, step by step. */
  ghost predicate Lasting(s: State, steps: seq<Step>, k: string, g: Goal) {
    forall i :: 0 <= i < |steps| ==>
      (Met(Run(s, steps[..i]).cluster, k, g) ==> Met(Next(Run(s, steps[..i]), steps[i]).cluster, k, g))
  }

  lemma LastingAt(s: State, steps: seq<Step>, i: nat, k: string, g: Goal)
    requires i < |steps| && Lasting(s, steps, k, g) && Met(Run(s, steps[..i]).cluster, k, g)
    ensures Met(Next(Run(s, steps[..i]), steps[i]).cluster, k, g)
  {
  }

  lemma LastingFront(s: State, steps: seq<Step>, j: nat, k: string, g: Goal)
    requires j <= |steps| && Lasting(s, steps, k, g)
    ensures Lasting(s, steps[..j], k, g)
  {
    hide Run, Next, Met;
    forall i | 0 <= i < j
      ensures Met(Run(s, steps[..j][..i]).cluster, k, g) ==> Met(Next(Run(s, steps[..j][..i]), steps[..j][i]).cluster, k, g)
    {
      assert steps[..j][..i] == steps[..i];
    }
  }

  lemma {:induction false} MetLasts(s: State, steps: seq<Step>, j: nat, k: string, g: Goal)
    requires j <= |steps| && Lasting(s, steps, k, g) && Met(Run(s, steps[..j]).cluster, k, g)
    ensures Met(Run(s, steps).cluster, k, g)
    decreases |steps|
  {
    hide Run, Next, Met, Lasting;
    if j == |steps| {
      assert steps[..j] == steps;
    } else {
      var front := steps[..|steps| - 1];
      assert front[..j] == steps[..j];
      LastingFront(s, steps, |front|, k, g);
      MetLasts(s, front, j, k, g);
      LastingAt(s, steps, |front|, k, g);
      RunLast(s, steps);
    }
  }

  /** Over a run from any state, a tick that begins in it is under way or has met the goal. */
  lemma {:induction false} UnderwayRun(s: State, steps: seq<Step>, n: Node, k: string, g: Goal)
    requires Plain(steps) && Lasting(s, steps, k, g)
    requires n in s.nodes && k in s.nodes[n].local && Reaches(s.nodes[n].local[k].version, g)
    ensures var t := Run(s, steps);
            SameFiles(s, t) && (HasBegun(s, steps, n) ==> Towards(t, n, k, g) && Underway(t, n, k, g))
  {
    if steps != [] {
      hide Next, Run, Towards, Underway, HasBegun, Lasting, Met, Reaches, Begins;
      var front, last := steps[..|steps| - 1], steps[|steps| - 1];
      LastingFront(s, steps, |front|, k, g);
      UnderwayRun(s, front, n, k, g);
      var mid := Run(s, front);
      RunLast(s, steps);
      SameFilesStep(s, mid, last);
      if Met(mid.cluster, k, g) { LastingAt(s, steps, |front|, k, g); }
      if HasBegun(s, steps, n) {
        HasBegunSnoc(s, steps, n);
        if Begins(mid, last, n) {
          BeginsUnderway(mid, last, n, k, g);
        } else {
          TowardsStep(mid, last, n, k, g);
          UnderwayStep(mid, last, n, k, g);
        }
      }
    }
  }

  lemma BeginsUnderway(s: State, step: Step, n: Node, k: string, g: Goal)
    requires Begins(s, step, n) && k in s.nodes[n].local
    ensures Underway(Next(s, step), n, k, g) && Towards(Next(s, step), n, k, g)
  {
  }

  /** A node that finishes a tick meets every goal its own record reaches. */
  lemma FinishedMeets(s: State, steps: seq<Step>, n: Node, k: string, g: Goal)
    requires Plain(steps) && Lasting(s, steps, k, g) && EveryoneTicks(s, steps)
    requires n in s.nodes && k in s.nodes[n].local && Reaches(s.nodes[n].local[k].version, g)
    ensures Met(Run(s, steps).cluster, k, g)
  {
    hide Run, Towards;
    var j: nat :| FinishesBy(s, steps, n, j);
    LastingFront(s, steps, j, k, g);
    UnderwayRun(s, steps[..j], n, k, g);
    MetLasts(s, steps, j, k, g);
  }

  /** Where a cluster copy comes from. */
  ghost predicate FromSomewhere(s: State, k: string, r: Record) {
    (k in s.cluster && s.cluster[k] == r) || exists n :: n in s.nodes && k in s.nodes[n].local && s.nodes[n].local[k] == r
  }

  /** Every node that is in a tick works on its present files. */
  predicate Present(s: State) {
    forall n :: n in s.nodes ==> s.nodes[n].phase.Idle? || s.nodes[n].tick.locals == s.nodes[n].local
  }

  lemma CopyOrigin(s: State, step: Step, k: string)
    ensures Lookup(ClusterAfter(s, step), k)
            == if PutsAt(s, step, k) then Some(s.nodes[step.n].tick.locals[k]) else Lookup(s.cluster, k)
  {
  }

  lemma OriginStep(s0: State, s: State, step: Step, k: string)
    requires SameFiles(s0, s) && Present(s) && !step.Edit? && (k in s.cluster ==> FromSomewhere(s0, k, s.cluster[k]))
    ensures var t := Next(s, step);
            SameFiles(s0, t) && Present(t) && (k in t.cluster ==> FromSomewhere(s0, k, t.cluster[k]))
  {
    hide Moved, ClusterAfter, LocksAfter;
    SameFilesStep(s0, s, step);
    CopyOrigin(s, step, k);
    if Enabled(s, step) {
      LocalsMoved(s, step);
    }
    if PutsAt(s, step, k) {
      assert s.nodes[step.n].tick.locals == s0.nodes[step.n].local;
    }
  }

  lemma {:induction false} OriginRun(s: State, steps: seq<Step>, k: string)
    requires Present(s) && Plain(steps)
    ensures var t := Run(s, steps);
            SameFiles(s, t) && Present(t) && (k in t.cluster ==> FromSomewhere(s, k, t.cluster[k]))
  {
    if steps != [] {
      OriginRun(s, steps[..|steps| - 1], k);
      OriginStep(s, Run(s, steps[..|steps| - 1]), steps[|steps| - 1], k);
    }
  }

  /** v is the greatest version of k among the cluster copy and all local copies. */
  ghost predicate Greatest(s: State, k: string, v: Version) {
    && (exists r :: FromSomewhere(s, k, r) && r.version == v)
    && forall r :: FromSomewhere(s, k, r) ==> AtMost(r.version, v)
  }

  /** The cluster of t holds at k the greatest version that s had anywhere, if any. */
  ghost predicate HoldsGreatest(s: State, t: State, k: string) {
    && (k in t.cluster <==> exists r :: FromSomewhere(s, k, r))
    && (k in t.cluster ==> Greatest(s, k, t.cluster[k].version))
  }

  lemma {:induction false} LockedRun(s: State, steps: seq<Step>)
    requires Resting(s) && Orderly(steps)
    ensures Exclusive(Run(s, steps))
  {
    if steps != [] {
      LockedRun(s, steps[..|steps| - 1]);
      ExclusiveStep(Run(s, steps[..|steps| - 1]), steps[|steps| - 1]);
    }
  }

  lemma LockedLasting(s: State, steps: seq<Step>, k: string, v: Version)
    requires Resting(s) && Orderly(steps)
    ensures Lasting(s, steps, k, AtLeast(v))
  {
    forall i | 0 <= i < |steps| && Met(Run(s, steps[..i]).cluster, k, AtLeast(v))
      ensures Met(Next(Run(s, steps[..i]), steps[i]).cluster, k, AtLeast(v))
    {
      LockedRun(s, steps[..i]);
      ClusterStep(Run(s, steps[..i]), steps[i], k, v);
    }
  }

  /** Convergence under the lock, over all interleavings: from any state at rest, whatever
      the cluster holds, once every node has finished a tick the cluster holds at each key
      the greatest version of its old copy and all local copies. */
  lemma LockedRoundConverges(s: State, steps: seq<Step>, k: string)
    requires Resting(s) && Orderly(steps) && Plain(steps) && EveryoneTicks(s, steps)
    ensures HoldsGreatest(s, Run(s, steps), k)
  {
    hide Run;
    var t := Run(s, steps);
    OriginRun(s, steps, k);
    forall r | FromSomewhere(s, k, r) ensures Met(t.cluster, k, AtLeast(r.version)) {
      AtMostReflexive(r.version);
      LockedLasting(s, steps, k, r.version);
      if k in s.cluster && s.cluster[k] == r {
        RunNothing(s, steps);
        MetLasts(s, steps, 0, k, AtLeast(r.version));
      } else {
        var n :| n in s.nodes && k in s.nodes[n].local && s.nodes[n].local[k] == r;
        FinishedMeets(s, steps, n, k, AtLeast(r.version));
      }
    }
  }

  lemma RunNothing(s: State, steps: seq<Step>)
    ensures Run(s, steps[..0]) == s
  {
  }

  /** Without the lock: the cluster copy is the base or beyond it, and so is every record
      that is about to be put. */
  predicate BeyondBase(s: State, k: string, base: Option<Record>) {
    && (Lookup(s.cluster, k) == base || Met(s.cluster, k, Beyond(base)))
    && forall n :: n in s.nodes ==>
         var ns := s.nodes[n];
         (ns.phase.Committing? && ns.phase.key == k && k in ns.tick.locals ==> Reaches(ns.tick.locals[k].version, Beyond(base)))
  }

  lemma BeyondBaseStep(s: State, step: Step, k: string, base: Option<Record>)
    requires BeyondBase(s, k, base) && PlainStep(step)
    ensures BeyondBase(Next(s, step), k, base)
    ensures Met(s.cluster, k, Beyond(base)) ==> Met(Next(s, step).cluster, k, Beyond(base))
  {
    if Enabled(s, step) && step.Recheck? && s.nodes[step.n].phase.Locked? && s.nodes[step.n].phase.key == k {
      var ns := s.nodes[step.n];
      if k in ns.tick.locals && k in s.cluster && base.Some? && Newer(ns.tick.locals[k].version, s.cluster[k].version) && Met(s.cluster, k, Beyond(base)) {
        NewerTransitive(ns.tick.locals[k].version, s.cluster[k].version, base.value.version);
      }
    }
  }

  lemma {:induction false} BeyondBaseRun(s: State, steps: seq<Step>, k: string)
    requires Resting(s) && Plain(steps)
    ensures BeyondBase(Run(s, steps), k, Lookup(s.cluster, k))
  {
    if steps != [] {
      BeyondBaseRun(s, steps[..|steps| - 1], k);
      BeyondBaseStep(Run(s, steps[..|steps| - 1]), steps[|steps| - 1], k, Lookup(s.cluster, k));
    }
  }

  lemma UnlockedLasting(s: State, steps: seq<Step>, k: string)
    requires Resting(s) && Plain(steps)
    ensures Lasting(s, steps, k, Beyond(Lookup(s.cluster, k)))
  {
    var g := Beyond(Lookup(s.cluster, k));
    forall i | 0 <= i < |steps| && Met(Run(s, steps[..i]).cluster, k, g)
      ensures Met(Next(Run(s, steps[..i]), steps[i]).cluster, k, g)
    {
      BeyondBaseRun(s, steps[..i], k);
      BeyondBaseStep(Run(s, steps[..i]), steps[i], k, Lookup(s.cluster, k));
    }
  }

  predicate Lags(s: State, n: Node, k: string)
    requires n in s.nodes
  {
    k in s.nodes[n].local && Reaches(s.nodes[n].local[k].version, Beyond(Lookup(s.cluster, k)))
  }

  /** The nodes that have something newer than the cluster copy of k. */
  function Lagging(s: State, k: string): set<Node> {
    set n | n in s.nodes && Lags(s, n, k)
  }

  /** A round without the lock, from rest: the cluster copy never ends up older than it
      began, it gets newer if any node has something newer, and it is always some node's
      record or the old copy. */
  lemma UnlockedRoundRises(s: State, steps: seq<Step>, k: string)
    requires Resting(s) && Plain(steps) && EveryoneTicks(s, steps)
    ensures var t := Run(s, steps);
            && SameFiles(s, t)
            && (k in t.cluster ==> FromSomewhere(s, k, t.cluster[k]))
            && (Lookup(t.cluster, k) == Lookup(s.cluster, k) || Met(t.cluster, k, Beyond(Lookup(s.cluster, k))))
            && (Lagging(s, k) != {} ==> Met(t.cluster, k, Beyond(Lookup(s.cluster, k))))
  {
    hide Run;
    OriginRun(s, steps, k);
    BeyondBaseRun(s, steps, k);
    if n :| n in Lagging(s, k) {
      UnlockedLasting(s, steps, k);
      FinishedMeets(s, steps, n, k, Beyond(Lookup(s.cluster, k)));
    }
  }

  /** A newer copy leaves no further node behind. */
  lemma LaggingSubset(s: State, t: State, k: string)
    requires SameFiles(s, t)
    requires Lookup(t.cluster, k) == Lookup(s.cluster, k) || Met(t.cluster, k, Beyond(Lookup(s.cluster, k)))
    ensures Lagging(t, k) <= Lagging(s, k)
  {
    forall n | n in Lagging(t, k) ensures n in Lagging(s, k) {
      if k in s.cluster && Lookup(t.cluster, k) != Lookup(s.cluster, k) {
        NewerTransitive(t.nodes[n].local[k].version, t.cluster[k].version, s.cluster[k].version);
      }
    }
  }

  /** The node whose record a newer copy is no longer lags. */
  lemma CaughtUp(s: State, t: State, k: string) returns (p: Node)
    requires SameFiles(s, t) && Met(t.cluster, k, Beyond(Lookup(s.cluster, k))) && FromSomewhere(s, k, t.cluster[k])
    ensures p in Lagging(s, k) && p !in Lagging(t, k)
  {
    NewerTrichotomy(t.cluster[k].version, t.cluster[k].version);
    p :| p in s.nodes && k in s.nodes[p].local && s.nodes[p].local[k] == t.cluster[k];
  }

  /** A round leaves at least one node fewer behind. */
  lemma LaggingShrinks(s: State, steps: seq<Step>, k: string)
    requires Resting(s) && Plain(steps) && EveryoneTicks(s, steps)
    ensures var t := Run(s, steps);
            Lagging(t, k) <= Lagging(s, k) && (Lagging(s, k) != {} ==> |Lagging(t, k)| < |Lagging(s, k)|)
  {
    hide Run, Lagging, Met, FromSomewhere;
    var t := Run(s, steps);
    UnlockedRoundRises(s, steps, k);
    LaggingSubset(s, t, k);
    if Lagging(s, k) != {} {
      assert k in t.cluster by { MetIsStored(t, k, Beyond(Lookup(s.cluster, k))); }
      var p := CaughtUp(s, t, k);
      SmallerSet(Lagging(t, k), Lagging(s, k), p);
    }
  }

  lemma MetIsStored(s: State, k: string, g: Goal)
    requires Met(s.cluster, k, g)
    ensures k in s.cluster
  {
  }

  lemma SmallerSet(a: set<Node>, b: set<Node>, p: Node)
    requires a <= b && p in b && p !in a
    ensures |a| < |b|
  {
    SubsetSize(a, b - {p});
  }

  lemma {:induction false} SubsetSize(a: set<Node>, b: set<Node>)
    requires a <= b
    ensures |a| <= |b|
    decreases |b|
  {
    if b != {} {
      var x :| x in b;
      SubsetSize(a - {x}, b - {x});
    }
  }

  function RunRounds(s: State, rounds: seq<seq<Step>>): State {
    if rounds == [] then s else Run(RunRounds(s, rounds[..|rounds| - 1]), rounds[|rounds| - 1])
  }

  /** Each round starts at rest and lets every node finish a tick. */
  ghost predicate Rounds(s: State, rounds: seq<seq<Step>>) {
    rounds == [] ||
    (var front, last := rounds[..|rounds| - 1], rounds[|rounds| - 1];
     Rounds(s, front) && Resting(RunRounds(s, front)) && Plain(last) && EveryoneTicks(RunRounds(s, front), last))
  }

  /** The copy only ever comes from the start, and does not get older than it was there. */
  lemma {:induction false} RoundsKeep(s: State, rounds: seq<seq<Step>>, k: string)
    requires Rounds(s, rounds)
    ensures var t := RunRounds(s, rounds);
            && SameFiles(s, t)
            && (k in t.cluster ==> FromSomewhere(s, k, t.cluster[k]))
            && (k in s.cluster ==> Met(t.cluster, k, AtLeast(s.cluster[k].version)))
            && (Lagging(t, k) == {} || |Lagging(t, k)| + |rounds| <= |Lagging(s, k)|)
  {
    if rounds == [] {
      if k in s.cluster { AtMostReflexive(s.cluster[k].version); }
    } else {
      hide Run;
      var front, last := rounds[..|rounds| - 1], rounds[|rounds| - 1];
      RoundsKeep(s, front, k);
      var mid := RunRounds(s, front);
      UnlockedRoundRises(mid, last, k);
      LaggingShrinks(mid, last, k);
      if k in s.cluster && Met(Run(mid, last).cluster, k, Beyond(Lookup(mid.cluster, k))) {
        NewerGivesAtMost(Run(mid, last).cluster[k].version, mid.cluster[k].version);
        AtMostTransitive(s.cluster[k].version, mid.cluster[k].version, Run(mid, last).cluster[k].version);
      }
    }
  }

  /** A node that does not lag has nothing newer than the cluster copy. */
  lemma NotLagging(s: State, n: Node, k: string)
    requires n in s.nodes && k in s.nodes[n].local && n !in Lagging(s, k)
    ensures Met(s.cluster, k, AtLeast(s.nodes[n].local[k].version))
  {
  }

  /** Convergence by re-publishing, as the engine's comment has it: whatever locks are
      obtained, after as many rounds as nodes were ahead of the cluster copy it is the
      greatest version of the old copy and all local copies. */
  lemma UnlockedRoundsConverge(s: State, rounds: seq<seq<Step>>, k: string)
    requires Rounds(s, rounds) && |rounds| >= |Lagging(s, k)|
    ensures HoldsGreatest(s, RunRounds(s, rounds), k)
    ensures Lagging(RunRounds(s, rounds), k) == {}
  {
    hide Run, RunRounds, Rounds;
    var t := RunRounds(s, rounds);
    RoundsKeep(s, rounds, k);
    assert Lagging(t, k) == {};
    forall r | FromSomewhere(s, k, r) ensures Met(t.cluster, k, AtLeast(r.version)) {
      if !(k in s.cluster && s.cluster[k] == r) {
        var n :| n in s.nodes && k in s.nodes[n].local && s.nodes[n].local[k] == r;
        NotLagging(t, n, k);
      }
    }
  }

  /** From then on, while files do not change, the cluster copy stays as it is, with or
      without the lock. */
  lemma NobodyLagsForever(s: State, steps: seq<Step>, k: string)
    requires Resting(s) && Plain(steps) && Lagging(s, k) == {}
    ensures Lookup(Run(s, steps).cluster, k) == Lookup(s.cluster, k)
  {
    hide Run;
    var t := Run(s, steps);
    OriginRun(s, steps, k);
    BeyondBaseRun(s, steps, k);
    if Lookup(t.cluster, k) != Lookup(s.cluster, k) {
      NewerTrichotomy(t.cluster[k].version, t.cluster[k].version);
      var n :| n in s.nodes && k in s.nodes[n].local && s.nodes[n].local[k] == t.cluster[k];
      NotLagging(s, n, k);
    }
  }
}
