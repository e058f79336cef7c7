/** The publish step over the shared LAN store, interleaved among any number of
    nodes, for one resource kind. The store is one linearizable map and the per-key
    lock an entry in another. As in the WAN model, a run is any sequence of labels
    and a label that is not enabled changes nothing. */
module Lan {
  import opened Versions

  type Node = nat

  datatype Tick = Tick(locals: map<string, Record>, todo: set<string>)

  /** `seen` is the snapshot of the first Get; `held` whether the lock was obtained. */
  datatype Phase =
    | Idle
    | Visiting
    | Deciding(key: string, seen: Option<Record>)
    | Contending(key: string, seen: Option<Record>)
    | Locked(key: string, seen: Option<Record>, held: bool)
    | Committing(key: string, seen: Option<Record>, held: bool)
    | Releasing(key: string, seen: Option<Record>, held: bool)
    | Applying(key: string, seen: Option<Record>)

  datatype NodeState = NodeState(
    local: map<string, Record>,
    tick: Tick,
    phase: Phase,
    applied: map<string, Record>)

  datatype State = State(nodes: map<Node, NodeState>, cluster: map<string, Record>, locks: map<string, Node>)

  /** `ok` tells whether the operation succeeds. A failed lock attempt lets the node
      go on without the lock; Expire frees a lock under its holder. */
  datatype Step =
    | Edit(n: Node, local: map<string, Record>)
    | BeginTick(n: Node, listed: set<string>)
    | Visit(n: Node, key: string, ok: bool)
    | Check(n: Node)
    | Lock(n: Node, ok: bool)
    | Recheck(n: Node, ok: bool)
    | Put(n: Node, ok: bool)
    | Release(n: Node)
    | Apply(n: Node, ok: bool)
    | EndTick(n: Node)
    | Expire(k: string)

  function Moved(s: State, ns: NodeState, step: Step): NodeState {
    match step
    case Edit(_, local) => if Keyed(local) then ns.(local := local) else ns
    case BeginTick(_, listed) =>
      if ns.phase.Idle? then ns.(tick := Tick(ns.local, ns.local.Keys + listed), phase := Visiting) else ns
    case Visit(_, key, ok) =>
      if ns.phase.Visiting? && key in ns.tick.todo
      then ns.(phase := Deciding(key, if ok then Lookup(s.cluster, key) else None)) else ns
    case Check(_) =>
      if ns.phase.Deciding? then Checked(ns, ns.phase.key, ns.phase.seen) else ns
    case Lock(n, ok) =>
      if ns.phase.Contending? && (!ok || ns.phase.key !in s.locks)
      then ns.(phase := Locked(ns.phase.key, ns.phase.seen, ok)) else ns
    case Recheck(_, ok) =>
      if ns.phase.Locked? then Rechecked(s, ns, ns.phase.key, ns.phase.seen, ns.phase.held, ok) else ns
    case Put(_, _) =>
      if ns.phase.Committing? then ns.(phase := Releasing(ns.phase.key, ns.phase.seen, ns.phase.held)) else ns
    case Release(_) =>
      if ns.phase.Releasing? then ns.(phase := Applying(ns.phase.key, ns.phase.seen)) else ns
    case Apply(_, ok) =>
      if ns.phase.Applying? then Applied(ns, ns.phase.key, ns.phase.seen, ok) else ns
    case EndTick(_) =>
      if ns.phase.Visiting? && ns.tick.todo == {} then ns.(phase := Idle) else ns
    case Expire(_) => ns
  }

  /** maybePublish up to the lock. */
  function Checked(ns: NodeState, key: string, seen: Option<Record>): NodeState {
    ns.(phase :=
        if key !in ns.tick.locals || (seen.Some? && AtMost(ns.tick.locals[key].version, seen.value.version))
        then Applying(key, seen) else Contending(key, seen))
  }

  /** The re-check under the lock; a failed read counts as absent. */
  function Rechecked(s: State, ns: NodeState, key: string, seen: Option<Record>, held: bool, ok: bool): NodeState {
    ns.(phase :=
        if ok && key in s.cluster && key in ns.tick.locals && AtMost(ns.tick.locals[key].version, s.cluster[key].version)
        then Releasing(key, seen, held) else Committing(key, seen, held))
  }

  /** The record applied is chosen from the snapshot, not from the re-check. */
  function Applied(ns: NodeState, key: string, seen: Option<Record>, ok: bool): NodeState {
    var best := PickNewer(Lookup(ns.tick.locals, key), seen);
    ns.(applied := if ok && best.Some? then ns.applied[key := best.value] else ns.applied,
        tick := ns.tick.(todo := ns.tick.todo - {key}),
        phase := Visiting)
  }

  predicate Enabled(s: State, step: Step) {
    !step.Expire? && step.n in s.nodes
  }

  /** The step is a Put of node n's local record under k. */
  predicate PutsAt(s: State, step: Step, k: string) {
    && Enabled(s, step) && step.Put? && step.ok
    && s.nodes[step.n].phase.Committing? && s.nodes[step.n].phase.key == k && k in s.nodes[step.n].tick.locals
  }

  function ClusterAfter(s: State, step: Step): map<string, Record> {
    if Enabled(s, step) && s.nodes[step.n].phase.Committing? && PutsAt(s, step, s.nodes[step.n].phase.key)
    then s.cluster[s.nodes[step.n].phase.key := s.nodes[step.n].tick.locals[s.nodes[step.n].phase.key]]
    else s.cluster
  }

  function LocksAfter(s: State, step: Step): map<string, Node> {
    if step.Expire? then s.locks - {step.k}
    else if !Enabled(s, step) then s.locks
    else
      var p := s.nodes[step.n].phase;
      if step.Lock? && step.ok && p.Contending? && p.key !in s.locks then s.locks[p.key := step.n]
      else if step.Release? && p.Releasing? && p.held && p.key in s.locks && s.locks[p.key] == step.n then s.locks - {p.key}
      else s.locks
  }

  function Next(s: State, step: Step): State {
    State(if Enabled(s, step) then s.nodes[step.n := Moved(s, s.nodes[step.n], step)] else s.nodes,
          ClusterAfter(s, step),
          LocksAfter(s, step))
  }

  function Run(s: State, steps: seq<Step>): State {
    if steps == [] then s
    else Next(Run(s, steps[..|steps| - 1]), steps[|steps| - 1])
  }

  /** Nodes just started; the cluster may already hold records. */
  predicate Init(s: State) {
    && s.locks == map[] && Keyed(s.cluster)
    && forall n :: n in s.nodes ==>
         s.nodes[n].phase.Idle? && s.nodes[n].applied == map[] && s.nodes[n].tick == Tick(map[], {}) && Keyed(s.nodes[n].local)
  }

  /** Every lock attempt succeeds, no lock expires while held, and the re-check reads. */
  predicate OrderlyStep(step: Step) {
    !step.Expire? && (step.Lock? ==> step.ok) && (step.Recheck? ==> step.ok)
  }

  predicate Orderly(steps: seq<Step>) {
    forall i :: 0 <= i < |steps| ==> OrderlyStep(steps[i])
  }

  predicate HoldsLock(p: Phase) {
    p.Locked? || p.Committing? || p.Releasing?
  }

  /** The node holds the lock of the key it is publishing, and what the re-check
      found is still there. */
  predicate NodeOrderly(s: State, n: Node)
    requires n in s.nodes
  {
    var ns := s.nodes[n];
    && (HoldsLock(ns.phase) ==> ns.phase.held && ns.phase.key in s.locks && s.locks[ns.phase.key] == n)
    && (ns.phase.Contending? || HoldsLock(ns.phase) ==> ns.phase.key in ns.tick.locals)
    && (ns.phase.Committing? && ns.phase.key in s.cluster ==>
        Newer(ns.tick.locals[ns.phase.key].version, s.cluster[ns.phase.key].version))
  }

  predicate Exclusive(s: State) {
    forall n :: n in s.nodes ==> NodeOrderly(s, n)
  }

  lemma ExclusiveStay(s: State, step: Step, n: Node)
    requires Exclusive(s) && OrderlyStep(step) && n in s.nodes && !(Enabled(s, step) && step.n == n)
    ensures NodeOrderly(Next(s, step), n)
  {
    assert NodeOrderly(s, n);
    if Enabled(s, step) {
      assert NodeOrderly(s, step.n);
    }
  }

  lemma ExclusiveMove(s: State, step: Step)
    requires Exclusive(s) && OrderlyStep(step) && Enabled(s, step)
    ensures NodeOrderly(Next(s, step), step.n)
  {
    assert NodeOrderly(s, step.n);
  }

  lemma ExclusiveStep(s: State, step: Step)
    requires Exclusive(s) && OrderlyStep(step)
    ensures Exclusive(Next(s, step))
  {
    forall n | n in Next(s, step).nodes ensures NodeOrderly(Next(s, step), n) {
      if Enabled(s, step) && step.n == n {
        ExclusiveMove(s, step);
      } else {
        ExclusiveStay(s, step, n);
      }
    }
  }

  lemma {:induction false} ExclusiveRun(s0: State, steps: seq<Step>)
    requires Init(s0) && Orderly(steps)
    ensures Exclusive(Run(s0, steps))
  {
    if steps != [] {
      ExclusiveRun(s0, steps[..|steps| - 1]);
      ExclusiveStep(Run(s0, steps[..|steps| - 1]), steps[|steps| - 1]);
    }
  }

  /** Safety over all interleavings: every Put makes the cluster copy strictly newer,
      and no other step changes it. */
  lemma EveryPutIsNewer(s0: State, steps: seq<Step>, step: Step, k: string)
    requires Init(s0) && Orderly(steps) && OrderlyStep(step)
    ensures var s := Run(s0, steps); var s' := Next(s, step);
            && (PutsAt(s, step, k) ==> k in s'.cluster && (k in s.cluster ==> Newer(s'.cluster[k].version, s.cluster[k].version)))
            && (!PutsAt(s, step, k) ==> Lookup(s'.cluster, k) == Lookup(s.cluster, k))
  {
    ExclusiveRun(s0, steps);
    var s := Run(s0, steps);
    if PutsAt(s, step, k) {
      assert NodeOrderly(s, step.n);
    }
  }

  lemma ClusterStep(s: State, step: Step, k: string, v: Version)
    requires Exclusive(s) && Holds(s.cluster, k, v)
    ensures Holds(Next(s, step).cluster, k, v)
  {
    if PutsAt(s, step, k) {
      assert NodeOrderly(s, step.n);
      NewerGivesAtMost(Next(s, step).cluster[k].version, s.cluster[k].version);
      AtMostTransitive(v, s.cluster[k].version, Next(s, step).cluster[k].version);
    }
  }

  /** The cluster version at a key never decreases between any two points of a run. */
  lemma {:induction false} ClusterNeverFalls(s0: State, steps: seq<Step>, i: nat, k: string)
    requires Init(s0) && Orderly(steps) && i <= |steps| && k in Run(s0, steps[..i]).cluster
    ensures Holds(Run(s0, steps).cluster, k, Run(s0, steps[..i]).cluster[k].version)
    decreases |steps|
  {
    if i == |steps| {
      assert steps[..i] == steps;
      AtMostReflexive(Run(s0, steps).cluster[k].version);
    } else {
      var front := steps[..|steps| - 1];
      assert front[..i] == steps[..i];
      ClusterNeverFalls(s0, front, i, k);
      ExclusiveRun(s0, front);
      ClusterStep(Run(s0, front), steps[|steps| - 1], k, Run(s0, steps[..i]).cluster[k].version);
    }
  }

  /** With snapshots and puts succeeding as well. Applies may still fail, and files
      may change in any way between ticks. */
  predicate SmoothStep(step: Step) {
    OrderlyStep(step) && (step.Visit? ==> step.ok) && (step.Put? ==> step.ok)
  }

  predicate Smooth(steps: seq<Step>) {
    forall i :: 0 <= i < |steps| ==> SmoothStep(steps[i])
  }

  function SeenBy(p: Phase): Option<Record> {
    if p.Idle? || p.Visiting? then None else p.seen
  }

  /** What the node has applied is in the cluster or superseded there; the snapshot of
      the key it works on is at least as new; and before it applies, so is its local copy. */
  predicate NodeCurrent(s: State, n: Node)
    requires n in s.nodes
  {
    var ns := s.nodes[n];
    && (forall k :: k in ns.applied ==> Holds(s.cluster, k, ns.applied[k].version))
    && (SeenBy(ns.phase).Some? ==> Holds(s.cluster, ns.phase.key, SeenBy(ns.phase).value.version))
    && (!ns.phase.Idle? && !ns.phase.Visiting? && ns.phase.key in ns.applied ==>
        ns.phase.seen.Some? && AtMost(ns.applied[ns.phase.key].version, ns.phase.seen.value.version))
    && (ns.phase.Releasing? || ns.phase.Applying? ==>
        ns.phase.key in ns.tick.locals ==> Holds(s.cluster, ns.phase.key, ns.tick.locals[ns.phase.key].version))
  }

  predicate Current(s: State) {
    forall n :: n in s.nodes ==> NodeCurrent(s, n)
  }

  lemma CurrentStay(s: State, step: Step, n: Node)
    requires Exclusive(s) && n in s.nodes && NodeCurrent(s, n) && Next(s, step).nodes[n] == s.nodes[n]
    ensures NodeCurrent(Next(s, step), n)
  {
    var s', ns := Next(s, step), s.nodes[n];
    forall k | k in ns.applied ensures Holds(s'.cluster, k, ns.applied[k].version) {
      ClusterStep(s, step, k, ns.applied[k].version);
    }
    if SeenBy(ns.phase).Some? {
      ClusterStep(s, step, ns.phase.key, SeenBy(ns.phase).value.version);
    }
    if (ns.phase.Releasing? || ns.phase.Applying?) && ns.phase.key in ns.tick.locals {
      ClusterStep(s, step, ns.phase.key, ns.tick.locals[ns.phase.key].version);
    }
  }

  /** A snapshot is at least as new as anything the node applied before. */
  lemma VisitCurrent(s: State, n: Node, key: string)
    requires n in s.nodes && NodeCurrent(s, n)
    ensures NodeCurrent(Next(s, Visit(n, key, true)), n)
  {
    if key in s.cluster {
      AtMostReflexive(s.cluster[key].version);
    }
  }

  /** A publish decision ends with the local copy covered by the cluster: at the check ... */
  lemma CheckCurrent(s: State, n: Node)
    requires n in s.nodes && NodeCurrent(s, n)
    ensures NodeCurrent(Next(s, Check(n)), n)
  {
    var ns := s.nodes[n];
    if ns.phase.Deciding? && ns.phase.seen.Some? && ns.phase.key in ns.tick.locals {
      var v := ns.tick.locals[ns.phase.key].version;
      if AtMost(v, ns.phase.seen.value.version) {
        AtMostTransitive(v, ns.phase.seen.value.version, s.cluster[ns.phase.key].version);
      }
    }
  }

  /** ... or at the re-check. */
  lemma RecheckCurrent(s: State, n: Node)
    requires Exclusive(s) && n in s.nodes && NodeCurrent(s, n)
    ensures NodeCurrent(Next(s, Recheck(n, true)), n)
  {
    assert NodeOrderly(s, n);
  }

  lemma LockCurrent(s: State, step: Step)
    requires Enabled(s, step) && NodeCurrent(s, step.n) && (step.Lock? || step.Release?)
    ensures NodeCurrent(Next(s, step), step.n)
  {
  }

  lemma PutCurrent(s: State, n: Node)
    requires Exclusive(s) && n in s.nodes && NodeCurrent(s, n)
    ensures NodeCurrent(Next(s, Put(n, true)), n)
  {
    var s', ns := Next(s, Put(n, true)), s.nodes[n];
    assert NodeOrderly(s, n);
    forall k | k in ns.applied ensures Holds(s'.cluster, k, ns.applied[k].version) {
      ClusterStep(s, Put(n, true), k, ns.applied[k].version);
    }
    if SeenBy(ns.phase).Some? {
      ClusterStep(s, Put(n, true), ns.phase.key, SeenBy(ns.phase).value.version);
    }
    if ns.phase.Committing? {
      AtMostReflexive(ns.tick.locals[ns.phase.key].version);
    } else if (ns.phase.Releasing? || ns.phase.Applying?) && ns.phase.key in ns.tick.locals {
      ClusterStep(s, Put(n, true), ns.phase.key, ns.tick.locals[ns.phase.key].version);
    }
  }

  lemma ApplyCurrent(s: State, n: Node, ok: bool)
    requires n in s.nodes && NodeCurrent(s, n)
    ensures NodeCurrent(Next(s, Apply(n, ok)), n)
  {
  }

  predicate AppliesAt(s: State, step: Step, n: Node, k: string) {
    && Enabled(s, step) && step.n == n && step.Apply? && step.ok
    && s.nodes[n].phase.Applying? && s.nodes[n].phase.key == k
  }

  lemma AppliedAfter(s: State, step: Step, n: Node, k: string)
    requires n in s.nodes
    ensures var ns := s.nodes[n];
            var best := if AppliesAt(s, step, n, k) then PickNewer(Lookup(ns.tick.locals, k), ns.phase.seen) else None;
            n in Next(s, step).nodes &&
            Lookup(Next(s, step).nodes[n].applied, k) == if best.Some? then best else Lookup(ns.applied, k)
  {
  }

  /** The moment of application: the record applied is not older than the one before. */
  lemma ApplyRises(s: State, step: Step, n: Node, k: string)
    requires n in s.nodes && NodeCurrent(s, n) && k in s.nodes[n].applied
    ensures Holds(Next(s, step).nodes[n].applied, k, s.nodes[n].applied[k].version)
  {
    hide Next, PickNewer;
    var ns := s.nodes[n];
    var v := ns.applied[k].version;
    AtMostReflexive(v);
    AppliedAfter(s, step, n, k);
    if AppliesAt(s, step, n, k) {
      var local := Lookup(ns.tick.locals, k);
      PickNewerIsMaximum(local, ns.phase.seen);
      AtMostTransitive(v, ns.phase.seen.value.version, PickNewer(local, ns.phase.seen).value.version);
    }
  }

  lemma CurrentMove(s: State, step: Step)
    requires Exclusive(s) && SmoothStep(step) && Enabled(s, step) && NodeCurrent(s, step.n)
    ensures NodeCurrent(Next(s, step), step.n)
  {
    match step
    case Visit(n, key, _) => VisitCurrent(s, n, key);
    case Put(n, _) => PutCurrent(s, n);
    case Apply(n, ok) => ApplyCurrent(s, n, ok);
    case Check(n) => CheckCurrent(s, n);
    case Lock(_, _) => LockCurrent(s, step);
    case Recheck(n, _) => RecheckCurrent(s, n);
    case Release(_) => LockCurrent(s, step);
    case Edit(_, _) =>
    case BeginTick(_, _) =>
    case EndTick(_) =>
  }

  lemma CurrentStep(s: State, step: Step)
    requires Exclusive(s) && Current(s) && SmoothStep(step)
    ensures Current(Next(s, step))
  {
    forall n | n in Next(s, step).nodes ensures NodeCurrent(Next(s, step), n) {
      assert NodeCurrent(s, n);
      if Enabled(s, step) && step.n == n {
        CurrentMove(s, step);
      } else {
        CurrentStay(s, step, n);
      }
    }
  }

  lemma {:induction false} CurrentRun(s0: State, steps: seq<Step>)
    requires Init(s0) && Smooth(steps)
    ensures Current(Run(s0, steps)) && Exclusive(Run(s0, steps))
  {
    if steps != [] {
      CurrentRun(s0, steps[..|steps| - 1]);
      CurrentStep(Run(s0, steps[..|steps| - 1]), steps[|steps| - 1]);
      ExclusiveStep(Run(s0, steps[..|steps| - 1]), steps[|steps| - 1]);
    }
  }

  lemma NodesFixed(s: State, step: Step)
    ensures Next(s, step).nodes.Keys == s.nodes.Keys
  {
  }

  /** The versions a node applies under a key never decrease over a whole run, although
      each tick applies the snapshot it took before the re-check. */
  lemma {:induction false} AppliedNeverFalls(s0: State, steps: seq<Step>, i: nat, n: Node, k: string)
    requires Init(s0) && Smooth(steps) && i <= |steps|
    requires n in Run(s0, steps[..i]).nodes && k in Run(s0, steps[..i]).nodes[n].applied
    ensures n in Run(s0, steps).nodes
    ensures Holds(Run(s0, steps).nodes[n].applied, k, Run(s0, steps[..i]).nodes[n].applied[k].version)
    decreases |steps|
  {
    if i == |steps| {
      assert steps[..i] == steps;
      AtMostReflexive(Run(s0, steps).nodes[n].applied[k].version);
    } else {
      var front, last := steps[..|steps| - 1], steps[|steps| - 1];
      assert front[..i] == steps[..i];
      AppliedNeverFalls(s0, front, i, n, k);
      CurrentRun(s0, front);
      var s := Run(s0, front);
      NodesFixed(s, last);
      assert NodeCurrent(s, n);
      ApplyRises(s, last, n, k);
      AtMostTransitive(Run(s0, steps[..i]).nodes[n].applied[k].version,
                       s.nodes[n].applied[k].version, Next(s, last).nodes[n].applied[k].version);
    }
  }
}
