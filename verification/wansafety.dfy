/** What every run of the WAN protocol keeps, with losses, duplicates and races. */
module WanSafety {
  import opened Versions
  import opened Wan

  predicate InWindow(p: Phase, k: string) {
    (p.Rereading? || p.Committing?) && p.key == k
  }

  /** Between the own-store lookup of the re-check and the Put, unless a delivery
      interfered, the own store still has nothing that the local record is not newer than. */
  predicate WindowOk(ns: NodeState) {
    match ns.phase
    case Contending(key, _) => key in ns.tick.locals
    case Rereading(key, _, _, raced) => key in ns.tick.locals && (!raced ==> key !in ns.store)
    case Committing(key, _, raced) =>
      && key in ns.tick.locals
      && (!raced && key in ns.store ==> Newer(ns.tick.locals[key].version, ns.store[key].version))
    case _ => true
  }

  ghost predicate Windows(s: State) {
    forall n :: n in s.nodes ==> WindowOk(s.nodes[n])
  }

  lemma WindowsStep(s: State, step: Step)
    requires Windows(s)
    ensures Windows(Next(s, step))
  {
    if Enabled(s, step) {
      WindowMoved(s, step);
    }
  }

  lemma WindowMoved(s: State, step: Step)
    requires Enabled(s, step) && WindowOk(s.nodes[Actor(step)])
    ensures WindowOk(Moved(s, step))
  {
    var ns := s.nodes[Actor(step)];
    match step
    case Deliver(m) => assert WindowOk(DoDeliver(ns, m.rec));
    case Recheck(_) => assert WindowOk(DoRecheck(ns));
    case Ask(_, up) => assert WindowOk(DoAsk(s, ns, up));
    case Check(_) => assert WindowOk(DoCheck(ns));
    case _ =>
  }

  lemma {:induction false} WindowsRun(s: State, steps: seq<Step>)
    requires Init(s)
    ensures Windows(Run(s, steps))
  {
    if steps != [] {
      WindowsRun(s, steps[..|steps| - 1]);
      WindowsStep(Run(s, steps[..|steps| - 1]), steps[|steps| - 1]);
    }
  }

  /** The step is a Put that replaces the record at (n, k). */
  predicate PutsAt(s: State, step: Step, n: Node, k: string) {
    step == Put(n) && n in s.nodes && CanPut(s.nodes[n]) && s.nodes[n].phase.key == k
  }

  /** The Put writes after a delivery for the same key reached the node inside the window. */
  predicate RacedPut(s: State, step: Step, n: Node, k: string) {
    PutsAt(s, step, n, k) && s.nodes[n].phase.raced
  }

  /** No step removes a stored key, and the version stored at (n, k) falls exactly
      when a Put of an older record replaces it; such a Put has raced a delivery. */
  lemma StoredVersionFallsIff(s0: State, steps: seq<Step>, step: Step, n: Node, k: string)
    requires Init(s0)
    requires var s := Run(s0, steps); n in s.nodes && k in s.nodes[n].store
    ensures var s := Run(s0, steps); var s' := Next(s, step);
            && n in s'.nodes && k in s'.nodes[n].store
            && (Newer(s.nodes[n].store[k].version, s'.nodes[n].store[k].version) <==>
                PutsAt(s, step, n, k) && Newer(s.nodes[n].store[k].version, Published(s.nodes[n]).version))
            && (PutsAt(s, step, n, k) && Newer(s.nodes[n].store[k].version, Published(s.nodes[n]).version)
                ==> RacedPut(s, step, n, k))
  {
    var s := Run(s0, steps);
    WindowsRun(s0, steps);
    StoreStep(s, step, n, k);
  }

  predicate DeliversTo(s: State, step: Step, n: Node, k: string) {
    step.Deliver? && Enabled(s, step) && step.m.to == n && step.m.rec.key == k
  }

  lemma StoreUntouched(s: State, step: Step, n: Node, k: string)
    requires n in s.nodes && !PutsAt(s, step, n, k) && !DeliversTo(s, step, n, k)
    ensures Lookup(Next(s, step).nodes[n].store, k) == Lookup(s.nodes[n].store, k)
  {
  }

  lemma StoreStep(s: State, step: Step, n: Node, k: string)
    requires Windows(s) && n in s.nodes && k in s.nodes[n].store
    ensures var s' := Next(s, step);
            && n in s'.nodes && k in s'.nodes[n].store
            && (Newer(s.nodes[n].store[k].version, s'.nodes[n].store[k].version) <==>
                PutsAt(s, step, n, k) && Newer(s.nodes[n].store[k].version, Published(s.nodes[n]).version))
            && (PutsAt(s, step, n, k) && Newer(s.nodes[n].store[k].version, Published(s.nodes[n]).version)
                ==> RacedPut(s, step, n, k))
  {
    var v := s.nodes[n].store[k].version;
    AtMostReflexive(v);
    assert WindowOk(s.nodes[n]);
    if PutsAt(s, step, n, k) {
      NewerTrichotomy(v, Published(s.nodes[n]).version);
    } else if DeliversTo(s, step, n, k) {
      NewerTrichotomy(v, step.m.rec.version);
    } else {
      StoreUntouched(s, step, n, k);
    }
  }

  predicate Raced(p: Phase) {
    (p.Rereading? || p.Committing?) && p.raced
  }

  /** The mark appears only at a delivery to the node, inside the window. */
  lemma RacedStep(s: State, step: Step, n: Node)
    requires n in s.nodes && Raced(Next(s, step).nodes[n].phase)
    ensures var p, q := s.nodes[n].phase, Next(s, step).nodes[n].phase;
            InWindow(p, q.key) && (Raced(p) || DeliversTo(s, step, n, q.key))
  {
    if Enabled(s, step) && n == Actor(step) {
      RacedMoved(s, step);
    }
  }

  lemma RacedMoved(s: State, step: Step)
    requires Enabled(s, step) && Raced(Moved(s, step).phase)
    ensures var p, q := s.nodes[Actor(step)].phase, Moved(s, step).phase;
            InWindow(p, q.key) && (Raced(p) || (step.Deliver? && step.m.rec.key == q.key))
  {
  }

  /** From state j of the run to its end, node n stays in the window for k. */
  ghost predicate StaysInWindow(s0: State, steps: seq<Step>, j: nat, n: Node, k: string) {
    forall i :: j <= i <= |steps| ==>
      n in Run(s0, steps[..i]).nodes && InWindow(Run(s0, steps[..i]).nodes[n].phase, k)
  }

  lemma NodesFixed(s: State, step: Step)
    ensures Next(s, step).nodes.Keys == s.nodes.Keys
  {
  }

  lemma StaysInWindowStart(s0: State, steps: seq<Step>, n: Node, k: string)
    requires n in Run(s0, steps).nodes && InWindow(Run(s0, steps).nodes[n].phase, k)
    ensures StaysInWindow(s0, steps, |steps|, n, k)
  {
    assert steps[..|steps|] == steps;
  }

  lemma StaysInWindowExtends(s0: State, steps: seq<Step>, j: nat, n: Node, k: string)
    requires steps != [] && j < |steps| && StaysInWindow(s0, steps[..|steps| - 1], j, n, k)
    requires n in Run(s0, steps).nodes && InWindow(Run(s0, steps).nodes[n].phase, k)
    ensures StaysInWindow(s0, steps, j, n, k)
  {
    assert steps[..|steps|] == steps;
    forall i | j <= i < |steps|
      ensures n in Run(s0, steps[..i]).nodes && InWindow(Run(s0, steps[..i]).nodes[n].phase, k)
    {
      assert steps[..i] == steps[..|steps| - 1][..i];
    }
  }

  ghost predicate RacedAt(s: State, n: Node, k: string) {
    n in s.nodes && Raced(s.nodes[n].phase) && s.nodes[n].phase.key == k
  }

  lemma RacedAtStep(s: State, step: Step, n: Node, k: string)
    requires RacedAt(Next(s, step), n, k)
    ensures n in s.nodes && InWindow(s.nodes[n].phase, k)
    ensures RacedAt(s, n, k) || DeliversTo(s, step, n, k)
  {
    NodesFixed(s, step);
    RacedStep(s, step, n);
  }

  /** A raised `raced` mark is history, not bookkeeping: a delivery for the same node
      and key happened while the node was in the window it is still in. */
  lemma {:induction false} RacedMeansDelivered(s0: State, steps: seq<Step>, n: Node, k: string) returns (j: nat)
    requires Init(s0) && RacedAt(Run(s0, steps), n, k)
    ensures j < |steps| && DeliversTo(Run(s0, steps[..j]), steps[j], n, k)
    ensures StaysInWindow(s0, steps, j, n, k)
  {
    hide Next;
    var front := steps[..|steps| - 1];
    RacedAtStep(Run(s0, front), steps[|steps| - 1], n, k);
    if RacedAt(Run(s0, front), n, k) {
      j := RacedMeansDelivered(s0, front, n, k);
      assert steps[..j] == front[..j];
    } else {
      j := |steps| - 1;
      StaysInWindowStart(s0, front, n, k);
    }
    StaysInWindowExtends(s0, steps, j, n, k);
  }

  /** The records a step reads as a node's local records: those of a tick that begins. */
  function Reads(s: State, step: Step): set<Record> {
    if step.BeginTick? && step.n in s.nodes && s.nodes[step.n].phase.Idle?
    then s.nodes[step.n].local.Values
    else {}
  }

  ghost predicate EverRead(s0: State, steps: seq<Step>, r: Record) {
    exists j: nat :: j < |steps| && r in Reads(Run(s0, steps[..j]), steps[j])
  }

  function SeenBy(p: Phase): Option<Record> {
    if p.Deciding? || p.Contending? || p.Rereading? || p.Committing? || p.Applying? then p.seen else None
  }

  predicate StoredAt(s: State, p: Node, k: string, r: Record) {
    p in s.nodes && k in s.nodes[p].store && s.nodes[p].store[k] == r
  }

  /** The records a node keeps come from `known`, each under its own key. */
  ghost predicate NodeKnows(ns: NodeState, known: iset<Record>) {
    && Keyed(ns.local)
    && (forall k :: k in ns.store ==> ns.store[k] in known && ns.store[k].key == k)
    && (forall k :: k in ns.applied ==> ns.applied[k] in known && ns.applied[k].key == k)
    && (forall k :: k in ns.tick.locals ==> ns.tick.locals[k] in known && ns.tick.locals[k].key == k)
    && (SeenBy(ns.phase).Some? ==> SeenBy(ns.phase).value in known && SeenBy(ns.phase).value.key == ns.phase.key)
  }

  ghost predicate Knows(s: State, known: iset<Record>) {
    && (forall n :: n in s.nodes ==> NodeKnows(s.nodes[n], known))
    && (forall m :: m in s.net ==> m.rec in known)
  }

  lemma KnowsMore(s: State, known: iset<Record>, more: iset<Record>)
    requires Knows(s, known) && known <= more
    ensures Knows(s, more)
  {
    forall n | n in s.nodes ensures NodeKnows(s.nodes[n], more) {
      assert NodeKnows(s.nodes[n], known);
    }
  }

  /** A record is seen because it was seen before or lies in some node's store. */
  lemma SeenOrigin(s: State, step: Step) returns (p: Node)
    requires Enabled(s, step) && SeenBy(Moved(s, step).phase).Some?
    ensures var ns, ns' := s.nodes[Actor(step)], Moved(s, step);
            || StoredAt(s, p, ns'.phase.key, SeenBy(ns'.phase).value)
            || (SeenBy(ns'.phase) == SeenBy(ns.phase) && ns'.phase.key == ns.phase.key)
  {
    var ns := s.nodes[Actor(step)];
    p := if step.Ask? && ns.phase.Reading? && ns.phase.asked < |ns.peers| then ns.peers[ns.phase.asked] else Actor(step);
  }

  lemma SeenKnown(s: State, step: Step, known: iset<Record>)
    requires Knows(s, known) && Enabled(s, step) && SeenBy(Moved(s, step).phase).Some?
    ensures var p := Moved(s, step).phase; SeenBy(p).value in known && SeenBy(p).value.key == p.key
  {
    var p := SeenOrigin(s, step);
    assert NodeKnows(s.nodes[Actor(step)], known);
    if p in s.nodes {
      assert NodeKnows(s.nodes[p], known);
    }
  }

  /** Where the moving node's local records and the tick's copy of them come from. */
  lemma LocalsMoved(s: State, step: Step)
    requires Enabled(s, step)
    ensures var ns, ns' := s.nodes[Actor(step)], Moved(s, step);
            && (ns'.local == ns.local || (step.Edit? && ns'.local == step.local && Keyed(step.local) && !ns'.tick.current))
            && (ns'.tick.locals == ns.tick.locals || ns'.tick.locals == ns.local == ns'.local)
            && (ns'.tick.current ==>
                ns'.tick.locals == ns'.local || (ns.tick.current && ns'.tick.locals == ns.tick.locals && ns'.local == ns.local))
  {
  }

  /** A record is stored because it was stored before, or was published or delivered. */
  lemma StoreOrigin(s: State, step: Step, n: Node, k: string)
    requires n in s.nodes && k in Next(s, step).nodes[n].store && Keyed(s.nodes[n].tick.locals)
    ensures var r := Next(s, step).nodes[n].store[k];
            || StoredAt(s, n, k, r)
            || (PutsAt(s, step, n, k) && r == Published(s.nodes[n]))
            || (step.Deliver? && step.m in s.net && step.m.rec == r && r.key == k)
  {
  }

  lemma StoredKnown(s: State, step: Step, known: iset<Record>, k: string)
    requires Knows(s, known) && Enabled(s, step) && k in Moved(s, step).store
    ensures Moved(s, step).store[k] in known && Moved(s, step).store[k].key == k
  {
    assert NodeKnows(s.nodes[Actor(step)], known);
    StoreOrigin(s, step, Actor(step), k);
  }

  lemma AppliedOrigin(s: State, step: Step, k: string)
    requires Enabled(s, step) && k in Moved(s, step).applied
    ensures var ns, r := s.nodes[Actor(step)], Moved(s, step).applied[k];
            || (k in ns.applied && r == ns.applied[k])
            || (k in ns.tick.locals && r == ns.tick.locals[k])
            || (SeenBy(ns.phase) == Some(r) && ns.phase.key == k)
  {
  }

  lemma MovedKnows(s: State, step: Step, known: iset<Record>)
    requires Knows(s, known) && Enabled(s, step)
    requires forall r :: r in Reads(s, step) ==> r in known
    ensures NodeKnows(Moved(s, step), known)
  {
    var ns, ns' := s.nodes[Actor(step)], Moved(s, step);
    assert NodeKnows(ns, known);
    LocalsMoved(s, step);
    LocalsRead(s, step);
    if SeenBy(ns'.phase).Some? {
      SeenKnown(s, step, known);
    }
    forall k | k in ns'.store ensures ns'.store[k] in known && ns'.store[k].key == k {
      StoredKnown(s, step, known, k);
    }
    forall k | k in ns'.applied ensures ns'.applied[k] in known && ns'.applied[k].key == k {
      AppliedOrigin(s, step, k);
    }
  }

  lemma LocalsRead(s: State, step: Step)
    requires Enabled(s, step)
    ensures var ns, ns' := s.nodes[Actor(step)], Moved(s, step);
            ns'.tick.locals == ns.tick.locals ||
            (ns'.tick.locals == ns.local && forall k :: k in ns'.tick.locals ==> ns'.tick.locals[k] in Reads(s, step))
  {
    hide AtMost, PickNewer, Guarded, PeerAnswer;
  }

  lemma KnowsStep(s: State, step: Step, known: iset<Record>)
    requires Knows(s, known)
    requires forall r :: r in Reads(s, step) ==> r in known
    ensures Knows(Next(s, step), known)
  {
    hide Moved, NetAfter, NodeKnows;
    if Enabled(s, step) {
      MovedKnows(s, step, known);
      forall m | m in NetAfter(s, step) ensures m.rec in known {
        SentKnown(s, step, known, m);
      }
    }
  }

  lemma SentKnown(s: State, step: Step, known: iset<Record>, m: Msg)
    requires Knows(s, known) && Enabled(s, step) && m in NetAfter(s, step)
    ensures m.rec in known
  {
    hide Moved;
    assert NodeKnows(s.nodes[Actor(step)], known);
    assert m in s.net || (step.Put? && CanPut(s.nodes[step.n]) && m.rec == Published(s.nodes[step.n]));
  }

  lemma EverReadMore(s0: State, steps: seq<Step>, r: Record)
    requires steps != [] && EverRead(s0, steps[..|steps| - 1], r)
    ensures EverRead(s0, steps, r)
  {
    var front := steps[..|steps| - 1];
    var j: nat :| j < |front| && r in Reads(Run(s0, front[..j]), front[j]);
    assert steps[..j] == front[..j] && steps[j] == front[j];
  }

  lemma EverReadLast(s0: State, steps: seq<Step>, r: Record)
    requires steps != [] && r in Reads(Run(s0, steps[..|steps| - 1]), steps[|steps| - 1])
    ensures EverRead(s0, steps, r)
  {
  }

  /** No invention: whatever is stored, applied or in flight, anywhere in any run, was
      read from some node's files earlier in that run, under the same key. */
  lemma {:induction false} NothingInvented(s0: State, steps: seq<Step>)
    requires Init(s0)
    ensures Knows(Run(s0, steps), iset r | EverRead(s0, steps, r))
  {
    var known := iset r | EverRead(s0, steps, r);
    if steps == [] {
    } else {
      var front, last := steps[..|steps| - 1], steps[|steps| - 1];
      hide EverRead, Knows, Next, Reads;
      NothingInvented(s0, front);
      forall r | EverRead(s0, front, r) ensures EverRead(s0, steps, r) {
        EverReadMore(s0, steps, r);
      }
      forall r | r in Reads(Run(s0, front), last) ensures r in known {
        EverReadLast(s0, steps, r);
      }
      KnowsMore(Run(s0, front), (iset r | EverRead(s0, front, r)), known);
      KnowsStep(Run(s0, front), last, known);
    }
  }
}
