/** When a node that has missed a version of a key gets it after all. */
module WanMissed {
  import opened Versions
  import opened Wan
  import opened WanSafety
  import opened WanConvergence
  import opened WanFixedPoints

  /** The node's files have version v of k, or something newer. */
  predicate IsOrigin(ns: NodeState, k: string, v: Version) {
    Holds(ns.local, k, v)
  }

  /** Its own store already has what it could publish. */
  predicate HasPublished(ns: NodeState, k: string) {
    k in ns.local ==> Holds(ns.store, k, ns.local[k].version)
  }

  /** The node works on its present files, and as an origin it has published and does not
      get to a Put of k again. */
  predicate Mute(ns: NodeState, k: string, v: Version) {
    && Keyed(ns.local) && (ns.phase.Idle? || ns.tick.locals == ns.local)
    && (IsOrigin(ns, k, v) ==>
        && HasPublished(ns, k)
        && ((ns.phase.Reading? || ns.phase.Contending? || ns.phase.Rereading? || ns.phase.Committing?) ==> ns.phase.key != k)
        && (ns.phase.Deciding? && ns.phase.key == k ==> ns.phase.seen.Some? && AtMost(ns.local[k].version, ns.phase.seen.value.version)))
  }

  /** All nodes are mute, and nothing in flight carries the version. */
  ghost predicate AllMute(s: State, k: string, v: Version) {
    && (forall n :: n in s.nodes ==> Mute(s.nodes[n], k, v))
    && (forall m :: m in s.net ==> !Carries(m, m.to, k, v))
  }

  lemma MuteMoved(s: State, step: Step, k: string, v: Version)
    requires Enabled(s, step) && !step.Edit? && !step.Deliver? && Mute(s.nodes[Actor(step)], k, v)
    ensures Mute(Moved(s, step), k, v) && Moved(s, step).local == s.nodes[Actor(step)].local
    ensures step.Put? && CanPut(s.nodes[step.n]) && s.nodes[step.n].phase.key == k ==> !AtMost(v, Published(s.nodes[step.n]).version)
  {
  }

  lemma MuteDelivered(ns: NodeState, r: Record, k: string, v: Version)
    requires Mute(ns, k, v)
    ensures Mute(DoDeliver(ns, r), k, v) && DoDeliver(ns, r).local == ns.local
  {
    if IsOrigin(ns, k, v) {
      GuardedHolds(ns.store, r, k, ns.local[k].version);
    }
  }

  lemma MuteStep(s: State, step: Step, k: string, v: Version)
    requires AllMute(s, k, v) && !step.Edit?
    ensures AllMute(Next(s, step), k, v)
  {
    hide Mute, Moved, Carries;
    if Enabled(s, step) {
      assert Mute(s.nodes[Actor(step)], k, v);
      if step.Deliver? {
        MuteDelivered(s.nodes[step.m.to], step.m.rec, k, v);
        DeliverMoves(s, step);
      } else {
        MuteMoved(s, step, k, v);
      }
      forall m | m in NetAfter(s, step) ensures !Carries(m, m.to, k, v) {
        SentMute(s, step, m, k, v);
      }
    }
  }

  lemma DeliverMoves(s: State, step: Step)
    requires Enabled(s, step) && step.Deliver?
    ensures Moved(s, step) == DoDeliver(s.nodes[step.m.to], step.m.rec)
  {
  }

  lemma SentMute(s: State, step: Step, m: Msg, k: string, v: Version)
    requires AllMute(s, k, v) && Enabled(s, step) && !step.Edit? && m in NetAfter(s, step)
    ensures !Carries(m, m.to, k, v)
  {
    hide Moved;
    if m !in s.net {
      var ns := s.nodes[step.n];
      assert step.Put? && CanPut(ns) && m.rec == Published(ns);
      assert Mute(ns, k, v);
      MuteMoved(s, step, k, v);
    }
  }

  /** The node's store does not get the version. */
  lemma MissedStep(s: State, step: Step, k: string, v: Version, p: Node)
    requires AllMute(s, k, v) && !step.Edit? && p in s.nodes && !Holds(s.nodes[p].store, k, v)
    ensures p in Next(s, step).nodes && !Holds(Next(s, step).nodes[p].store, k, v)
  {
    hide Next, Moved;
    NodesFixed(s, step);
    assert Mute(s.nodes[p], k, v);
    if k in Next(s, step).nodes[p].store {
      if PutsAt(s, step, p, k) {
        MuteMoved(s, step, k, v);
        PutStores(s, p, k);
      } else if DeliversTo(s, step, p, k) {
        DeliverStores(s, step, p, k);
      } else {
        StoreUntouched(s, step, p, k);
      }
    }
  }

  lemma PutStores(s: State, n: Node, k: string)
    requires PutsAt(s, Put(n), n, k)
    ensures Lookup(Next(s, Put(n)).nodes[n].store, k) == Some(Published(s.nodes[n]))
  {
  }

  lemma DeliverStores(s: State, step: Step, n: Node, k: string)
    requires DeliversTo(s, step, n, k)
    ensures var now := Lookup(Next(s, step).nodes[n].store, k); now == Lookup(s.nodes[n].store, k) || now == Some(step.m.rec)
  {
  }

  /** Node p never gets version v of k while the files stay as they are. */
  ghost predicate NeverGets(s: State, p: Node, k: string, v: Version) {
    forall steps: seq<Step> :: NoEdits(steps) ==> MissesAfter(s, steps, p, k, v)
  }

  ghost predicate MissesAfter(s: State, steps: seq<Step>, p: Node, k: string, v: Version) {
    p in Run(s, steps).nodes && !Holds(Run(s, steps).nodes[p].store, k, v)
  }

  lemma {:induction false} MuteRun(s: State, steps: seq<Step>, k: string, v: Version, p: Node)
    requires AllMute(s, k, v) && NoEdits(steps) && p in s.nodes && !Holds(s.nodes[p].store, k, v)
    ensures AllMute(Run(s, steps), k, v) && MissesAfter(s, steps, p, k, v)
  {
    if steps != [] {
      hide AllMute, Next;
      var front := steps[..|steps| - 1];
      MuteRun(s, front, k, v, p);
      MuteStep(Run(s, front), steps[|steps| - 1], k, v);
      MissedStep(Run(s, front), steps[|steps| - 1], k, v, p);
    }
  }

  /** An idle system with nothing in flight. */
  predicate Quiescent(s: State) {
    s.net == multiset{} && forall n :: n in s.nodes ==> s.nodes[n].phase.Idle? && Keyed(s.nodes[n].local)
  }

  /** Every origin of the version has its own local record in its own store. */
  predicate OriginsPublished(s: State, k: string, v: Version) {
    forall n :: n in s.nodes && IsOrigin(s.nodes[n], k, v) ==> HasPublished(s.nodes[n], k)
  }

  /** An origin that has not published can still bring the version to p: its own next tick
      puts it, and the fan-out arrives. */
  lemma OriginReaches(s: State, n: Node, p: Node, k: string, v: Version) returns (steps: seq<Step>)
    requires Meshed(s) && Quiescent(s) && n in s.nodes && p in s.nodes && IsOrigin(s.nodes[n], k, v) && !HasPublished(s.nodes[n], k)
    ensures NoEdits(steps) && !MissesAfter(s, steps, p, k, v)
  {
    hide Run, Next, Approach;
    var ns := s.nodes[n];
    var r := ns.local[k];
    var approach := Approach(ns, n, k) + [Put(n)];
    ApproachReaches(s, n, k);
    ApproachNoEdits(ns, n, k);
    RunConcat(s, Approach(ns, n, k), [Put(n)]);
    var t := With(s, n, Poised(ns, k));
    RunOne(t, Put(n));
    PoisedSends(s, n, k);
    if p == n {
      steps := approach;
    } else {
      steps := approach + [Deliver(Msg(p, r))];
      RunConcat(s, approach, [Deliver(Msg(p, r))]);
      RunOne(Next(t, Put(n)), Deliver(Msg(p, r)));
      assert Msg(p, r) in Next(t, Put(n)).net;
      DeliveredHolds(Next(t, Put(n)), Msg(p, r), k, v);
    }
  }

  lemma PoisedSends(s: State, n: Node, k: string)
    requires n in s.nodes && k in s.nodes[n].local
    ensures var t, r := Next(With(s, n, Poised(s.nodes[n], k)), Put(n)), s.nodes[n].local[k];
            && t.nodes.Keys == s.nodes.Keys && Lookup(t.nodes[n].store, k) == Some(r)
            && forall p :: p in s.nodes[n].peers ==> Msg(p, r) in t.net
  {
  }

  /** A missed version, exactly: in any number of meshed nodes at rest, a node without the
      version stays without it for good if and only if every node whose files have it, or
      something newer, already has its own record in its own store. So a fan-out that was
      missed is corrected by later ticks only through an origin that has yet to publish. */
  lemma MissedForeverIff(s: State, p: Node, k: string, v: Version)
    requires Meshed(s) && Quiescent(s) && p in s.nodes && !Holds(s.nodes[p].store, k, v)
    ensures NeverGets(s, p, k, v) <==> OriginsPublished(s, k, v)
  {
    hide Run, Next, Meshed;
    if OriginsPublished(s, k, v) {
      assert AllMute(s, k, v);
      forall steps: seq<Step> | NoEdits(steps) ensures MissesAfter(s, steps, p, k, v) {
        MuteRun(s, steps, k, v, p);
      }
    } else {
      var n :| n in s.nodes && IsOrigin(s.nodes[n], k, v) && !HasPublished(s.nodes[n], k);
      var steps := OriginReaches(s, n, p, k, v);
    }
  }
}
