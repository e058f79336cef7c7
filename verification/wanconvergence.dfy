/** Convergence of the WAN stores: key by key and version by version, and then of whole
    runs. */
module WanConvergence {
  import opened Versions
  import opened Wan
  import opened WanSafety

  predicate Carries(m: Msg, n: Node, k: string, v: Version) {
    m.to == n && m.rec.key == k && AtMost(v, m.rec.version)
  }

  ghost predicate Flying(net: multiset<Msg>, n: Node, k: string, v: Version) {
    exists m :: m in net && Carries(m, n, k, v)
  }

  /** Node n has version v of k, or something newer, in its store or on the way to it. */
  ghost predicate Covered(s: State, n: Node, k: string, v: Version) {
    n in s.nodes && (Holds(s.nodes[n].store, k, v) || Flying(s.net, n, k, v))
  }

  ghost predicate Everywhere(s: State, k: string, v: Version) {
    forall n :: n in s.nodes ==> Covered(s, n, k, v)
  }

  /** The hypotheses on the environment for one key and one version of it, step by step: a
      message that carries the version is lost only when its receiver has something as new
      in its store or still on the way, no file that new is replaced by an older one, and no
      Put replaces a stored record that new by an older one. Anything may happen to other
      keys and to older versions, and peers may fail to answer at any time. */
  ghost predicate CalmAt(s: State, step: Step, k: string, v: Version) {
    && (step.Lose? && Enabled(s, step) && Carries(step.m, step.m.to, k, v) ==> Covered(Next(s, step), step.m.to, k, v))
    && (step.Edit? && step.n in s.nodes && Holds(s.nodes[step.n].local, k, v) ==> Holds(step.local, k, v))
    && (step.Put? && step.n in s.nodes && CanPut(s.nodes[step.n]) && s.nodes[step.n].phase.key == k && Holds(s.nodes[step.n].store, k, v)
        ==> AtMost(v, Published(s.nodes[step.n]).version))
  }

  ghost predicate CalmFor(s0: State, steps: seq<Step>, k: string, v: Version) {
    forall i :: 0 <= i < |steps| ==> CalmAt(Run(s0, steps[..i]), steps[i], k, v)
  }

  /** Every node lists every other node as a peer, and no one else. */
  ghost predicate Meshed(s: State) {
    && (forall n, p :: n in s.nodes && p in s.nodes && p != n ==> p in s.nodes[n].peers)
    && (forall n, p :: n in s.nodes && p in s.nodes[n].peers ==> p in s.nodes)
  }

  /** The node has dealt with key k in its current tick. */
  predicate Done(ns: NodeState, k: string) {
    k !in ns.tick.todo || (ns.phase.Applying? && ns.phase.key == k)
  }

  predicate Saw(p: Phase, k: string, v: Version) {
    SeenBy(p).Some? && p.key == k && AtMost(v, SeenBy(p).value.version)
  }

  /** The version is everywhere once it is stored or has been seen; a node that has dealt
      with a local record that new is covered. */
  ghost predicate NodeInv(s: State, n: Node, k: string, v: Version)
    requires n in s.nodes
  {
    var ns := s.nodes[n];
    && Keyed(ns.local) && Keyed(ns.tick.locals)
    && (ns.tick.current ==> ns.tick.locals == ns.local)
    && (Holds(ns.store, k, v) || Saw(ns.phase, k, v) ==> Everywhere(s, k, v))
    && (ns.tick.current && Holds(ns.tick.locals, k, v) && Done(ns, k) ==> Covered(s, n, k, v))
    && (ns.synced && Holds(ns.local, k, v) ==> Covered(s, n, k, v))
  }

  ghost predicate Inv(s: State, k: string, v: Version) {
    && Meshed(s)
    && (forall n :: n in s.nodes ==> NodeInv(s, n, k, v))
    && (forall m :: m in s.net ==> m.to in s.nodes && (Carries(m, m.to, k, v) ==> Everywhere(s, k, v)))
  }

  /** On a calm step what a node has covered stays covered. */
  lemma CoveredStep(s: State, step: Step, n: Node, k: string, v: Version)
    requires CalmAt(s, step, k, v) && Covered(s, n, k, v)
    ensures Covered(Next(s, step), n, k, v)
  {
    if Holds(s.nodes[n].store, k, v) {
      HeldStep(s, step, n, k, v);
    } else {
      var m :| m in s.net && Carries(m, n, k, v);
      FlyingStep(s, step, m, k, v);
    }
  }

  lemma HeldStep(s: State, step: Step, n: Node, k: string, v: Version)
    requires CalmAt(s, step, k, v) && n in s.nodes && Holds(s.nodes[n].store, k, v)
    ensures n in Next(s, step).nodes && Holds(Next(s, step).nodes[n].store, k, v)
  {
    if DeliversTo(s, step, n, k) {
      GuardedHolds(s.nodes[n].store, step.m.rec, k, v);
    } else if !PutsAt(s, step, n, k) {
      StoreUntouched(s, step, n, k);
    }
  }

  /** A guarded write never lowers a version. */
  lemma GuardedHolds(store: map<string, Record>, r: Record, k: string, v: Version)
    requires Holds(store, k, v)
    ensures Holds(Guarded(store, r), k, v)
  {
    if r.key == k && Newer(r.version, store[k].version) {
      NewerGivesAtMost(r.version, store[k].version);
      AtMostTransitive(v, store[k].version, r.version);
    }
  }

  lemma FlyingStep(s: State, step: Step, m: Msg, k: string, v: Version)
    requires CalmAt(s, step, k, v) && m in s.net && Carries(m, m.to, k, v) && m.to in s.nodes
    ensures Covered(Next(s, step), m.to, k, v)
  {
    hide Moved;
    if m in InFlight(s, step) {
      assert m in Next(s, step).net;
    } else if step.Deliver? {
      DeliveredHolds(s, m, k, v);
    }
  }

  /** What is in flight after a step, enabled or not. */
  function InFlight(s: State, step: Step): multiset<Msg> {
    if Enabled(s, step) then NetAfter(s, step) else s.net
  }

  lemma DeliveredHolds(s: State, m: Msg, k: string, v: Version)
    requires Enabled(s, Deliver(m)) && Carries(m, m.to, k, v)
    ensures Holds(Next(s, Deliver(m)).nodes[m.to].store, k, v)
  {
    var store := s.nodes[m.to].store;
    AtMostReflexive(m.rec.version);
    if k in store && AtMost(m.rec.version, store[k].version) {
      AtMostTransitive(v, m.rec.version, store[k].version);
    }
  }

  lemma EverywhereStep(s: State, step: Step, k: string, v: Version)
    requires CalmAt(s, step, k, v) && Everywhere(s, k, v)
    ensures Everywhere(Next(s, step), k, v)
  {
    hide Next, Covered;
    NodesFixed(s, step);
    forall n | n in Next(s, step).nodes ensures Covered(Next(s, step), n, k, v) {
      CoveredStep(s, step, n, k, v);
    }
  }

  /** A Put covers every node: the publisher by its store, the others by the fan-out. */
  lemma PutCovers(s: State, n: Node, k: string, v: Version)
    requires Meshed(s) && n in s.nodes && CanPut(s.nodes[n]) && Keyed(s.nodes[n].tick.locals)
    requires s.nodes[n].phase.key == k && AtMost(v, Published(s.nodes[n]).version)
    ensures Everywhere(Next(s, Put(n)), k, v)
  {
    var s' := Next(s, Put(n));
    var r := Published(s.nodes[n]);
    forall p | p in s'.nodes ensures Covered(s', p, k, v) {
      if p != n {
        assert Msg(p, r) in s'.net;
        assert Carries(Msg(p, r), p, k, v);
      }
    }
  }

  lemma CoveredDown(s: State, n: Node, k: string, v: Version, w: Version)
    requires Covered(s, n, k, w) && AtMost(v, w)
    ensures Covered(s, n, k, v)
  {
    if Holds(s.nodes[n].store, k, w) {
      AtMostTransitive(v, w, s.nodes[n].store[k].version);
    } else {
      var m :| m in s.net && Carries(m, n, k, w);
      AtMostTransitive(v, w, m.rec.version);
      assert Carries(m, n, k, v);
    }
  }

  /** A node is finishing the publish decision for its current key. */
  predicate Finishes(s: State, step: Step) {
    && Enabled(s, step) && Moved(s, step).phase.Applying?
    && (var ns := s.nodes[Actor(step)];
        (ns.phase.Deciding? || ns.phase.Contending? || ns.phase.Rereading? || ns.phase.Committing?)
        && ns.phase.key in ns.tick.locals)
  }

  /** It finishes because it published, or because it found a copy that is not older. */
  lemma FinishOrigin(s: State, step: Step) returns (p: Node)
    requires Finishes(s, step)
    ensures var ns := s.nodes[Actor(step)];
            var v := ns.tick.locals[ns.phase.key].version;
            || (step.Put? && CanPut(ns))
            || (SeenBy(ns.phase).Some? && AtMost(v, SeenBy(ns.phase).value.version))
            || (p in s.nodes && Holds(s.nodes[p].store, ns.phase.key, v))
  {
    var ns := s.nodes[Actor(step)];
    p := if step.Ask? && ns.phase.Rereading? && ns.phase.asked < |ns.peers| then ns.peers[ns.phase.asked] else Actor(step);
  }

  /** A version that has been seen lay in some node's store. */
  lemma SawStep(s: State, step: Step, k: string, v: Version)
    requires Inv(s, k, v) && Enabled(s, step) && Saw(Moved(s, step).phase, k, v)
    ensures Everywhere(s, k, v)
  {
    hide Everywhere, Moved;
    var p := SeenOrigin(s, step);
    assert NodeInv(s, Actor(step), k, v);
    if p in s.nodes {
      assert NodeInv(s, p, k, v);
    }
  }

  /** A key that a step finishes is covered at the node. */
  lemma FinishStep(s: State, step: Step, k: string, v: Version)
    requires Inv(s, k, v) && CalmAt(s, step, k, v) && Finishes(s, step)
    requires var ns := s.nodes[Actor(step)]; ns.phase.key == k && AtMost(v, ns.tick.locals[k].version)
    ensures Covered(Next(s, step), Actor(step), k, v)
  {
    hide Moved, Next;
    var n := Actor(step);
    var ns := s.nodes[n];
    var w := ns.tick.locals[k].version;
    var p := FinishOrigin(s, step);
    NodesFixed(s, step);
    assert NodeInv(s, n, k, v);
    if step.Put? && CanPut(ns) {
      PutCovers(s, n, k, v);
    } else {
      if SeenBy(ns.phase).Some? && AtMost(w, SeenBy(ns.phase).value.version) {
        AtMostTransitive(v, w, SeenBy(ns.phase).value.version);
      } else {
        AtMostTransitive(v, w, s.nodes[p].store[k].version);
        assert NodeInv(s, p, k, v);
      }
      CoveredStep(s, step, n, k, v);
    }
  }

  /** A step that does not begin a tick takes at most the key being applied off its list. */
  lemma TodoMoved(s: State, step: Step)
    requires Enabled(s, step) && !step.BeginTick?
    ensures var ns, ns' := s.nodes[Actor(step)], Moved(s, step);
            && (ns'.tick.current ==> ns.tick.current) && ns'.tick.locals == ns.tick.locals
            && (ns'.tick.todo == ns.tick.todo || (ns.phase.Applying? && ns'.tick.todo == ns.tick.todo - {ns.phase.key}))
  {
    hide AtMost, PickNewer, Guarded, PeerAnswer;
  }

  /** A node gets to applying a key by finishing the decision about it. */
  lemma ApplyingOrigin(s: State, step: Step)
    requires Enabled(s, step) && Moved(s, step).phase.Applying?
    ensures var ns, ns' := s.nodes[Actor(step)], Moved(s, step);
            && (ns.phase.Applying? || ns.phase.Deciding? || ns.phase.Contending? || ns.phase.Rereading? || ns.phase.Committing?)
            && ns.phase.key == ns'.phase.key
  {
    hide AtMost, PickNewer, Guarded, PeerAnswer;
  }

  lemma DoneOrigin(s: State, step: Step, k: string)
    requires Enabled(s, step)
    requires var ns' := Moved(s, step); ns'.tick.current && k in ns'.tick.locals && Done(ns', k)
    ensures var ns := s.nodes[Actor(step)];
            && ns.tick.current && ns.tick.locals == Moved(s, step).tick.locals
            && (Done(ns, k) || (Finishes(s, step) && ns.phase.key == k))
  {
    if step.BeginTick? {
      assert Moved(s, step) == DoBegin(s.nodes[step.n], step.listed);
    } else {
      hide Moved;
      TodoMoved(s, step);
      if Moved(s, step).phase.Applying? {
        ApplyingOrigin(s, step);
      }
    }
  }

  lemma DoneStep(s: State, step: Step, k: string, v: Version)
    requires Inv(s, k, v) && CalmAt(s, step, k, v) && Enabled(s, step)
    requires var ns' := Moved(s, step); ns'.tick.current && Holds(ns'.tick.locals, k, v) && Done(ns', k)
    ensures Covered(Next(s, step), Actor(step), k, v)
  {
    hide Moved, Next, Covered, Finishes;
    var n := Actor(step);
    DoneOrigin(s, step, k);
    assert NodeInv(s, n, k, v);
    if Done(s.nodes[n], k) {
      CoveredStep(s, step, n, k, v);
    } else {
      FinishStep(s, step, k, v);
    }
  }

  lemma SyncedOrigin(s: State, step: Step)
    requires Enabled(s, step) && Moved(s, step).synced
    ensures var ns := s.nodes[Actor(step)];
            ns.local == Moved(s, step).local && (ns.synced || (ns.tick.current && ns.tick.todo == {}))
  {
  }

  lemma SyncedStep(s: State, step: Step, k: string, v: Version)
    requires Inv(s, k, v) && CalmAt(s, step, k, v) && Enabled(s, step)
    requires Moved(s, step).synced && Holds(Moved(s, step).local, k, v)
    ensures Covered(Next(s, step), Actor(step), k, v)
  {
    hide Covered, Next, Moved;
    assert NodeInv(s, Actor(step), k, v);
    SyncedOrigin(s, step);
    CoveredStep(s, step, Actor(step), k, v);
  }

  lemma StoredStep(s: State, step: Step, n: Node, k: string, v: Version)
    requires Inv(s, k, v) && CalmAt(s, step, k, v) && n in s.nodes && n in Next(s, step).nodes && Holds(Next(s, step).nodes[n].store, k, v)
    ensures Everywhere(Next(s, step), k, v)
  {
    hide Everywhere, Next;
    assert NodeInv(s, n, k, v);
    StoreOrigin(s, step, n, k);
    if PutsAt(s, step, n, k) {
      PutCovers(s, n, k, v);
    } else {
      EverywhereStep(s, step, k, v);
    }
  }

  lemma KeyedStep(s: State, step: Step, n: Node)
    requires n in s.nodes && Keyed(s.nodes[n].local) && Keyed(s.nodes[n].tick.locals)
    requires s.nodes[n].tick.current ==> s.nodes[n].tick.locals == s.nodes[n].local
    ensures var ns' := Next(s, step).nodes[n];
            Keyed(ns'.local) && Keyed(ns'.tick.locals) && (ns'.tick.current ==> ns'.tick.locals == ns'.local)
  {
    if Enabled(s, step) && n == Actor(step) {
      LocalsMoved(s, step);
    }
  }

  lemma StayedStep(s: State, step: Step, n: Node, k: string, v: Version)
    requires Inv(s, k, v) && CalmAt(s, step, k, v) && n in s.nodes
    requires n in Next(s, step).nodes && Next(s, step).nodes[n] == s.nodes[n]
    ensures NodeInv(Next(s, step), n, k, v)
  {
    hide Everywhere, Covered, Next;
    assert NodeInv(s, n, k, v);
    if Everywhere(s, k, v) {
      EverywhereStep(s, step, k, v);
    }
    if Covered(s, n, k, v) {
      CoveredStep(s, step, n, k, v);
    }
  }

  lemma MovedStep(s: State, step: Step, k: string, v: Version)
    requires Inv(s, k, v) && CalmAt(s, step, k, v) && Enabled(s, step)
    ensures Actor(step) in Next(s, step).nodes && NodeInv(Next(s, step), Actor(step), k, v)
  {
    var s', n, ns' := Next(s, step), Actor(step), Moved(s, step);
    assert s'.nodes[n] == ns';
    hide Everywhere, Covered, Next, Moved;
    assert NodeInv(s, n, k, v);
    KeyedStep(s, step, n);
    if Holds(ns'.store, k, v) {
      StoredStep(s, step, n, k, v);
    }
    if Saw(ns'.phase, k, v) {
      SawStep(s, step, k, v);
      EverywhereStep(s, step, k, v);
    }
    if ns'.tick.current && Holds(ns'.tick.locals, k, v) && Done(ns', k) {
      DoneStep(s, step, k, v);
    }
    if ns'.synced && Holds(ns'.local, k, v) {
      SyncedStep(s, step, k, v);
    }
  }

  lemma NetStep(s: State, step: Step, m: Msg, k: string, v: Version)
    requires Inv(s, k, v) && CalmAt(s, step, k, v) && m in Next(s, step).net
    ensures m.to in s.nodes && (Carries(m, m.to, k, v) ==> Everywhere(Next(s, step), k, v))
  {
    hide Moved, Everywhere;
    if m in s.net {
      if Carries(m, m.to, k, v) {
        EverywhereStep(s, step, k, v);
      }
    } else {
      assert step.Put? && CanPut(s.nodes[step.n]) && m.rec == Published(s.nodes[step.n]) && m.to in s.nodes[step.n].peers;
      assert NodeInv(s, step.n, k, v);
      if Carries(m, m.to, k, v) {
        PutCovers(s, step.n, k, v);
      }
    }
  }

  lemma InvStep(s: State, step: Step, k: string, v: Version)
    requires Inv(s, k, v) && CalmAt(s, step, k, v)
    ensures Inv(Next(s, step), k, v)
  {
    hide Everywhere, Next, NodeInv, Carries;
    var s' := Next(s, step);
    PeersStep(s, step);
    forall n | n in s'.nodes ensures NodeInv(s', n, k, v) {
      if Enabled(s, step) && n == Actor(step) {
        MovedStep(s, step, k, v);
      } else {
        StaysPut(s, step, n);
        StayedStep(s, step, n, k, v);
      }
    }
    forall m | m in s'.net ensures m.to in s'.nodes && (Carries(m, m.to, k, v) ==> Everywhere(s', k, v)) {
      NetStep(s, step, m, k, v);
    }
  }

  lemma StaysPut(s: State, step: Step, n: Node)
    requires n in s.nodes && !(Enabled(s, step) && n == Actor(step))
    ensures n in Next(s, step).nodes && Next(s, step).nodes[n] == s.nodes[n]
  {
  }

  lemma PeersStep(s: State, step: Step)
    ensures Next(s, step).nodes.Keys == s.nodes.Keys
    ensures forall n :: n in s.nodes ==> Next(s, step).nodes[n].peers == s.nodes[n].peers
    ensures Meshed(s) ==> Meshed(Next(s, step))
  {
    if Enabled(s, step) {
      PeersMoved(s, step);
    }
    hide Moved;
  }

  lemma PeersMoved(s: State, step: Step)
    requires Enabled(s, step)
    ensures Moved(s, step).peers == s.nodes[Actor(step)].peers
  {
  }

  lemma InitInv(s: State, k: string, v: Version)
    requires Init(s) && Meshed(s)
    ensures Inv(s, k, v)
  {
  }

  lemma CalmForFront(s0: State, steps: seq<Step>, k: string, v: Version)
    requires steps != [] && CalmFor(s0, steps, k, v)
    ensures CalmFor(s0, steps[..|steps| - 1], k, v)
    ensures CalmAt(Run(s0, steps[..|steps| - 1]), steps[|steps| - 1], k, v)
  {
    hide CalmAt, Run;
    var front := steps[..|steps| - 1];
    forall i | 0 <= i < |front| ensures CalmAt(Run(s0, front[..i]), front[i], k, v) {
      assert front[..i] == steps[..i] && front[i] == steps[i];
    }
  }

  lemma {:induction false} InvRun(s0: State, steps: seq<Step>, k: string, v: Version)
    requires Init(s0) && Meshed(s0) && CalmFor(s0, steps, k, v)
    ensures Inv(Run(s0, steps), k, v)
  {
    hide Init, Meshed, CalmFor, Inv, Next;
    if steps == [] {
      InitInv(s0, k, v);
    } else {
      CalmForFront(s0, steps, k, v);
      InvRun(s0, steps[..|steps| - 1], k, v);
      InvStep(Run(s0, steps[..|steps| - 1]), steps[|steps| - 1], k, v);
    }
  }

  /** Nothing is in flight, and every node has finished a tick that read its files after
      their last change. */
  predicate Settled(s: State) {
    s.net == multiset{} && forall n :: n in s.nodes ==> s.nodes[n].synced
  }

  /** A version spreads: if in a settled state some node's files have it, or something
      newer, so has every store. Only losses, file changes and overwrites that hit this
      version of this key are excluded. */
  lemma VersionSpreads(s0: State, steps: seq<Step>, k: string, v: Version, n: Node, p: Node)
    requires Init(s0) && Meshed(s0) && CalmFor(s0, steps, k, v) && Settled(Run(s0, steps))
    requires n in Run(s0, steps).nodes && p in Run(s0, steps).nodes && Holds(Run(s0, steps).nodes[n].local, k, v)
    ensures Holds(Run(s0, steps).nodes[p].store, k, v)
  {
    hide Run, Init, Meshed, CalmFor;
    var s := Run(s0, steps);
    InvRun(s0, steps, k, v);
    assert NodeInv(s, n, k, v) && Covered(s, n, k, v);
    assert Covered(s, p, k, v);
  }

  /** Local versions of k never fall. */
  ghost predicate RisesFor(s0: State, steps: seq<Step>, k: string) {
    forall i :: 0 <= i < |steps| ==> RisesAt(Run(s0, steps[..i]), steps[i], k)
  }

  predicate RisesAt(s: State, step: Step, k: string) {
    step.Edit? && step.n in s.nodes && k in s.nodes[step.n].local ==> Holds(step.local, k, s.nodes[step.n].local[k].version)
  }

  /** Some node's files are at least this new. */
  ghost predicate Bounded(s: State, k: string, v: Version) {
    exists n :: n in s.nodes && Holds(s.nodes[n].local, k, v)
  }

  predicate Has(m: map<string, Record>, k: string, v: Version) {
    k in m && m[k].version == v
  }

  /** No version of k in a node's store or tick exceeds all local ones. */
  ghost predicate NodeBounds(s: State, ns: NodeState, k: string) {
    && Keyed(ns.tick.locals) && Keyed(ns.local)
    && (k in ns.store ==> Bounded(s, k, ns.store[k].version))
    && (k in ns.tick.locals ==> Bounded(s, k, ns.tick.locals[k].version))
  }

  ghost predicate Bounds(s: State, k: string) {
    && (forall n :: n in s.nodes ==> NodeBounds(s, s.nodes[n], k))
    && (forall m :: m in s.net && m.rec.key == k ==> Bounded(s, k, m.rec.version))
  }

  lemma BoundedStep(s: State, step: Step, k: string, v: Version)
    requires RisesAt(s, step, k) && Bounded(s, k, v)
    ensures Bounded(Next(s, step), k, v)
  {
    hide Moved;
    var s' := Next(s, step);
    var n :| n in s.nodes && Holds(s.nodes[n].local, k, v);
    if Enabled(s, step) && n == Actor(step) {
      LocalsMoved(s, step);
    }
    if s'.nodes[n].local != s.nodes[n].local {
      AtMostTransitive(v, s.nodes[n].local[k].version, s'.nodes[n].local[k].version);
    }
    assert Holds(s'.nodes[n].local, k, v);
  }

  lemma LocalBounded(s: State, n: Node, k: string)
    requires n in s.nodes && k in s.nodes[n].local
    ensures Bounded(s, k, s.nodes[n].local[k].version)
  {
    AtMostReflexive(s.nodes[n].local[k].version);
    assert Holds(s.nodes[n].local, k, s.nodes[n].local[k].version);
  }

  lemma StoreBounded(s: State, step: Step, n: Node, k: string)
    requires Bounds(s, k) && RisesAt(s, step, k) && n in s.nodes && n in Next(s, step).nodes && k in Next(s, step).nodes[n].store
    ensures Bounded(Next(s, step), k, Next(s, step).nodes[n].store[k].version)
  {
    hide Next, Bounded;
    assert NodeBounds(s, s.nodes[n], k);
    StoreOrigin(s, step, n, k);
    BoundedStep(s, step, k, Next(s, step).nodes[n].store[k].version);
  }

  lemma NodeBoundsStep(s: State, step: Step, n: Node, k: string)
    requires Bounds(s, k) && RisesAt(s, step, k) && n in s.nodes
    ensures n in Next(s, step).nodes && NodeBounds(Next(s, step), Next(s, step).nodes[n], k)
  {
    hide Bounded, Moved;
    var s' := Next(s, step);
    var ns' := s'.nodes[n];
    assert NodeBounds(s, s.nodes[n], k);
    if Enabled(s, step) && n == Actor(step) {
      LocalsMoved(s, step);
    }
    hide Next;
    if k in ns'.store {
      StoreBounded(s, step, n, k);
    }
    if k in ns'.tick.locals {
      if ns'.tick.locals == ns'.local {
        LocalBounded(s', n, k);
      } else {
        BoundedStep(s, step, k, ns'.tick.locals[k].version);
      }
    }
  }

  lemma BoundsStep(s: State, step: Step, k: string)
    requires Bounds(s, k) && RisesAt(s, step, k)
    ensures Bounds(Next(s, step), k)
  {
    hide Bounded, NodeBounds, Moved;
    var s' := Next(s, step);
    forall n | n in s'.nodes ensures NodeBounds(s', s'.nodes[n], k) {
      NodeBoundsStep(s, step, n, k);
    }
    forall m | m in s'.net && m.rec.key == k ensures Bounded(s', k, m.rec.version) {
      if m !in s.net {
        SentBounded(s, step, m, k);
      }
      BoundedStep(s, step, k, m.rec.version);
    }
  }

  lemma SentBounded(s: State, step: Step, m: Msg, k: string)
    requires Bounds(s, k) && m in Next(s, step).net && m !in s.net && m.rec.key == k
    ensures Bounded(s, k, m.rec.version)
  {
    hide Bounded, Moved;
    assert step.Put? && CanPut(s.nodes[step.n]) && m.rec == Published(s.nodes[step.n]);
    assert NodeBounds(s, s.nodes[step.n], k);
  }

  lemma {:induction false} BoundsRun(s0: State, steps: seq<Step>, k: string)
    requires Init(s0) && RisesFor(s0, steps, k)
    ensures Bounds(Run(s0, steps), k)
  {
    if steps != [] {
      hide Bounds, RisesAt, Next;
      var front := steps[..|steps| - 1];
      forall i | 0 <= i < |front| ensures RisesAt(Run(s0, front[..i]), front[i], k) {
        assert front[..i] == steps[..i] && front[i] == steps[i];
      }
      BoundsRun(s0, front, k);
      BoundsStep(Run(s0, front), steps[|steps| - 1], k);
    }
  }

  /** v is the greatest version of k among all nodes' files. */
  ghost predicate GreatestLocal(s: State, k: string, v: Version) {
    && (exists n :: n in s.nodes && Has(s.nodes[n].local, k, v))
    && (forall n :: n in s.nodes && k in s.nodes[n].local ==> AtMost(s.nodes[n].local[k].version, v))
  }

  /** Convergence of one key: in a settled state every store holds it at the greatest local
      version, whatever losses and overwrites older versions of it suffered on the way. */
  lemma KeyConverges(s0: State, steps: seq<Step>, k: string, v: Version, p: Node)
    requires Init(s0) && Meshed(s0) && CalmFor(s0, steps, k, v) && RisesFor(s0, steps, k) && Settled(Run(s0, steps))
    requires GreatestLocal(Run(s0, steps), k, v) && p in Run(s0, steps).nodes
    ensures Has(Run(s0, steps).nodes[p].store, k, v)
  {
    hide Run, Init, Meshed, CalmFor, RisesFor, Settled;
    var s := Run(s0, steps);
    var n :| n in s.nodes && Has(s.nodes[n].local, k, v);
    AtMostReflexive(v);
    VersionSpreads(s0, steps, k, v, n, p);
    BoundsRun(s0, steps, k);
    var w := s.nodes[p].store[k].version;
    assert NodeBounds(s, s.nodes[p], k);
    var q :| q in s.nodes && Holds(s.nodes[q].local, k, w);
    AtMostTransitive(w, s.nodes[q].local[k].version, v);
    AtMostAntisymmetric(v, w);
  }

  predicate Rises(before: map<string, Record>, after: map<string, Record>) {
    forall k :: k in before ==> Holds(after, k, before[k].version)
  }

  /** The node's Put would replace a newer record in its own store. */
  predicate Clobbers(ns: NodeState) {
    CanPut(ns) && ns.phase.key in ns.store && Newer(ns.store[ns.phase.key].version, Published(ns).version)
  }

  /** The hypotheses for all keys and versions at once. */
  ghost predicate CalmStep(s: State, step: Step) {
    && (step.Lose? && Enabled(s, step) ==> Covered(Next(s, step), step.m.to, step.m.rec.key, step.m.rec.version))
    && (step.Edit? && step.n in s.nodes ==> Rises(s.nodes[step.n].local, step.local))
    && (step.Put? && step.n in s.nodes ==> !Clobbers(s.nodes[step.n]))
  }

  ghost predicate Calm(s0: State, steps: seq<Step>) {
    forall i :: 0 <= i < |steps| ==> CalmStep(Run(s0, steps[..i]), steps[i])
  }

  lemma CalmStepAt(s: State, step: Step, k: string, v: Version)
    requires CalmStep(s, step)
    ensures CalmAt(s, step, k, v) && RisesAt(s, step, k)
  {
    hide Next, Covered;
    if step.Lose? && Enabled(s, step) && Carries(step.m, step.m.to, k, v) {
      CoveredDown(Next(s, step), step.m.to, k, v, step.m.rec.version);
    }
    if step.Edit? && step.n in s.nodes && Holds(s.nodes[step.n].local, k, v) {
      AtMostTransitive(v, s.nodes[step.n].local[k].version, step.local[k].version);
    }
    if step.Put? && step.n in s.nodes && CanPut(s.nodes[step.n]) && s.nodes[step.n].phase.key == k && Holds(s.nodes[step.n].store, k, v) {
      AtMostTransitive(v, s.nodes[step.n].store[k].version, Published(s.nodes[step.n]).version);
    }
  }

  lemma CalmRunAt(s0: State, steps: seq<Step>, k: string, v: Version)
    requires Calm(s0, steps)
    ensures CalmFor(s0, steps, k, v) && RisesFor(s0, steps, k)
  {
    hide Run, CalmStep, CalmAt, RisesAt;
    forall i | 0 <= i < |steps| ensures CalmAt(Run(s0, steps[..i]), steps[i], k, v) && RisesAt(Run(s0, steps[..i]), steps[i], k) {
      CalmStepAt(Run(s0, steps[..i]), steps[i], k, v);
    }
  }

  /** Every store holds the greatest local version of every key that some node has, and nothing else. */
  ghost predicate Converged(s: State) {
    forall n, k :: n in s.nodes ==>
      && (k in s.nodes[n].store <==> exists p :: p in s.nodes && k in s.nodes[p].local)
      && (k in s.nodes[n].store ==> GreatestLocal(s, k, s.nodes[n].store[k].version))
  }

  /** Among finitely many nodes one has the greatest local version. */
  lemma {:induction false} GreatestAmong(s: State, ns: set<Node>, k: string, n: Node) returns (m: Node)
    requires ns <= s.nodes.Keys && n in ns && k in s.nodes[n].local
    ensures m in ns && k in s.nodes[m].local
    ensures forall p :: p in ns && k in s.nodes[p].local ==> AtMost(s.nodes[p].local[k].version, s.nodes[m].local[k].version)
    decreases |ns|
  {
    AtMostReflexive(s.nodes[n].local[k].version);
    var rest := ns - {n};
    if p :| p in rest && k in s.nodes[p].local {
      m := GreatestAmong(s, rest, k, p);
      if Newer(s.nodes[n].local[k].version, s.nodes[m].local[k].version) {
        var top := s.nodes[m].local[k].version;
        NewerGivesAtMost(s.nodes[n].local[k].version, top);
        forall q | q in rest && k in s.nodes[q].local ensures AtMost(s.nodes[q].local[k].version, s.nodes[n].local[k].version) {
          AtMostTransitive(s.nodes[q].local[k].version, top, s.nodes[n].local[k].version);
        }
        m := n;
      }
    } else {
      m := n;
    }
  }

  lemma GreatestExists(s: State, k: string, n: Node) returns (v: Version)
    requires n in s.nodes && k in s.nodes[n].local
    ensures GreatestLocal(s, k, v)
  {
    var m := GreatestAmong(s, s.nodes.Keys, k, n);
    v := s.nodes[m].local[k].version;
    assert Has(s.nodes[m].local, k, v);
  }

  /** Convergence: in every calm run of any number of fully meshed nodes, a settled
      state has all stores equal in version to the newest local copies. */
  lemma CalmRunsConverge(s0: State, steps: seq<Step>)
    requires Init(s0) && Meshed(s0) && Calm(s0, steps) && Settled(Run(s0, steps))
    ensures Converged(Run(s0, steps))
  {
    hide Run, Init, Meshed, Calm, Settled, GreatestLocal;
    var s := Run(s0, steps);
    forall n, k | n in s.nodes
      ensures k in s.nodes[n].store <==> exists p :: p in s.nodes && k in s.nodes[p].local
      ensures k in s.nodes[n].store ==> GreatestLocal(s, k, s.nodes[n].store[k].version)
    {
      ConvergedAt(s0, steps, n, k);
    }
  }

  lemma ConvergedAt(s0: State, steps: seq<Step>, n: Node, k: string)
    requires Init(s0) && Meshed(s0) && Calm(s0, steps) && Settled(Run(s0, steps)) && n in Run(s0, steps).nodes
    ensures var s := Run(s0, steps);
            && (k in s.nodes[n].store <==> exists p :: p in s.nodes && k in s.nodes[p].local)
            && (k in s.nodes[n].store ==> GreatestLocal(s, k, s.nodes[n].store[k].version))
  {
    hide Run, Init, Meshed, Calm, Settled, CalmFor, RisesFor;
    var s := Run(s0, steps);
    if k in s.nodes[n].store {
      CalmRunAt(s0, steps, k, s.nodes[n].store[k].version);
      BoundsRun(s0, steps, k);
      assert NodeBounds(s, s.nodes[n], k);
    }
    if p :| p in s.nodes && k in s.nodes[p].local {
      var v := GreatestExists(s, k, p);
      CalmRunAt(s0, steps, k, v);
      KeyConverges(s0, steps, k, v, n);
    }
  }

  /** Nothing is lost, local versions never fall, and no delivery for the same node and
      key falls between the re-check's own-store lookup and the Put. */
  ghost predicate OrderlyStep(s: State, step: Step) {
    && !step.Lose?
    && (step.Edit? && step.n in s.nodes ==> Rises(s.nodes[step.n].local, step.local))
    && (step.Put? && step.n in s.nodes && CanPut(s.nodes[step.n]) ==> !s.nodes[step.n].phase.raced)
  }

  ghost predicate Orderly(s0: State, steps: seq<Step>) {
    forall i :: 0 <= i < |steps| ==> OrderlyStep(Run(s0, steps[..i]), steps[i])
  }

  /** Such runs are calm: outside the window the re-check rules out the clobbering. */
  lemma OrderlyIsCalm(s0: State, steps: seq<Step>)
    requires Init(s0) && Orderly(s0, steps)
    ensures Calm(s0, steps)
  {
    hide Run, Init, Next;
    forall i | 0 <= i < |steps| ensures CalmStep(Run(s0, steps[..i]), steps[i]) {
      WindowsRun(s0, steps[..i]);
      var s, step := Run(s0, steps[..i]), steps[i];
      assert OrderlyStep(s, step);
      if step.Put? && step.n in s.nodes && Clobbers(s.nodes[step.n]) {
        var ns := s.nodes[step.n];
        assert WindowOk(ns);
        NewerTrichotomy(Published(ns).version, ns.store[ns.phase.key].version);
        assert false;
      }
    }
  }

  /** Convergence as the protocol is meant to be used: no loss, no race. */
  lemma OrderlyRunsConverge(s0: State, steps: seq<Step>)
    requires Init(s0) && Meshed(s0) && Orderly(s0, steps) && Settled(Run(s0, steps))
    ensures Converged(Run(s0, steps))
  {
    OrderlyIsCalm(s0, steps);
    CalmRunsConverge(s0, steps);
  }

  /** If moreover a version identifies the contents, all stores hold the same contents.
      The rest of the record may differ: it names the host that published it. */
  lemma CalmRunsAgree(s0: State, steps: seq<Step>, n: Node, p: Node, k: string)
    requires Init(s0) && Meshed(s0) && Calm(s0, steps) && Settled(Run(s0, steps))
    requires forall r, q :: EverRead(s0, steps, r) && EverRead(s0, steps, q) && r.key == q.key && r.version == q.version ==> r.blobs == q.blobs
    requires n in Run(s0, steps).nodes && p in Run(s0, steps).nodes
    ensures var a, b := Run(s0, steps).nodes[n].store, Run(s0, steps).nodes[p].store;
            (k in a <==> k in b) && (k in a ==> a[k].blobs == b[k].blobs && a[k].version == b[k].version)
  {
    hide Run, Init, Meshed, Calm, Settled, EverRead;
    CalmRunsConverge(s0, steps);
    NothingInvented(s0, steps);
    var s := Run(s0, steps);
    var a, b := s.nodes[n].store, s.nodes[p].store;
    assert k in a <==> k in b;
    if k in a {
      SameGreatest(s, k, a[k].version, b[k].version);
      assert NodeKnows(s.nodes[n], iset r | EverRead(s0, steps, r));
      assert NodeKnows(s.nodes[p], iset r | EverRead(s0, steps, r));
    }
  }

  lemma SameGreatest(s: State, k: string, v: Version, w: Version)
    requires GreatestLocal(s, k, v) && GreatestLocal(s, k, w)
    ensures v == w
  {
    AtMostAntisymmetric(v, w);
  }
}
