/** States in which the WAN protocol publishes nothing more, and how a node that is not
    in one gets to its Put. */
module WanFixedPoints {
  import opened Versions
  import opened Wan
  import opened WanSafety
  import opened WanConvergence

  /** The node's own store is at least as new as its files. */
  predicate OwnNewest(ns: NodeState) {
    forall k :: k in ns.local ==> Holds(ns.store, k, ns.local[k].version)
  }

  predicate AtRest(s: State) {
    s.net == multiset{} && forall n :: n in s.nodes ==> OwnNewest(s.nodes[n]) && s.nodes[n].phase.Idle?
  }

  /** A node whose tick cannot reach the Put. */
  predicate QuietNode(ns: NodeState) {
    && OwnNewest(ns)
    && (ns.phase.Idle? || ns.tick.locals == ns.local)
    && match ns.phase
       case Reading(key, _) => key !in ns.local
       case Deciding(key, seen) => key in ns.local ==> seen.Some? && AtMost(ns.local[key].version, seen.value.version)
       case Contending(_, _) => false
       case Rereading(_, _, _, _) => false
       case Committing(_, _, _) => false
       case _ => true
  }

  predicate Quiet(s: State) {
    s.net == multiset{} && forall n :: n in s.nodes ==> QuietNode(s.nodes[n])
  }

  predicate SameStores(s: State, t: State) {
    && s.nodes.Keys == t.nodes.Keys && s.net == t.net
    && forall n :: n in s.nodes ==> s.nodes[n].store == t.nodes[n].store && s.nodes[n].local == t.nodes[n].local
  }

  /** The files do not change during the steps. */
  predicate NoEdits(steps: seq<Step>) {
    forall i :: 0 <= i < |steps| ==> !steps[i].Edit?
  }

  lemma QuietMoved(s: State, step: Step)
    requires Enabled(s, step) && QuietNode(s.nodes[Actor(step)]) && !step.Edit? && !step.Deliver?
    ensures QuietNode(Moved(s, step))
    ensures Moved(s, step).store == s.nodes[Actor(step)].store && Moved(s, step).local == s.nodes[Actor(step)].local
    ensures step.Put? ==> !CanPut(s.nodes[step.n])
  {
  }

  lemma QuietStep(s: State, step: Step)
    requires Quiet(s) && !step.Edit?
    ensures Quiet(Next(s, step)) && SameStores(s, Next(s, step))
  {
    if Enabled(s, step) {
      QuietMoved(s, step);
    }
  }

  /** Fixed points: with nothing in flight, files unchanging and every node's own store
      as new as its files, no sequence of ticks changes any store, agreeing or not. */
  lemma {:induction false} RestIsFixed(s: State, steps: seq<Step>)
    requires AtRest(s) && NoEdits(steps)
    ensures SameStores(s, Run(s, steps)) && Quiet(Run(s, steps))
  {
    if steps != [] {
      RestIsFixed(s, steps[..|steps| - 1]);
      QuietStep(Run(s, steps[..|steps| - 1]), steps[|steps| - 1]);
    }
  }

  lemma {:induction false} RunConcat(s: State, xs: seq<Step>, ys: seq<Step>)
    ensures Run(s, xs + ys) == Run(Run(s, xs), ys)
  {
    if ys == [] {
      assert xs + ys == xs;
    } else {
      var front := ys[..|ys| - 1];
      assert (xs + ys)[..|xs + ys| - 1] == xs + front;
      RunConcat(s, xs, front);
    }
  }

  /** A settled state of a calm run stays converged from the moment its ticks are over. */
  lemma ConvergenceLasts(s0: State, steps: seq<Step>, more: seq<Step>)
    requires Init(s0) && Meshed(s0) && Calm(s0, steps) && Settled(Run(s0, steps))
    requires forall n :: n in Run(s0, steps).nodes ==> Run(s0, steps).nodes[n].phase.Idle?
    requires NoEdits(more)
    ensures SameStores(Run(s0, steps), Run(s0, steps + more))
    ensures Converged(Run(s0, steps + more))
  {
    hide Run, Init, Meshed, Calm;
    var s := Run(s0, steps);
    CalmRunsConverge(s0, steps);
    forall n | n in s.nodes ensures OwnNewest(s.nodes[n]) {
      forall k | k in s.nodes[n].local ensures Holds(s.nodes[n].store, k, s.nodes[n].local[k].version) {
        assert GreatestLocal(s, k, s.nodes[n].store[k].version);
      }
    }
    RestIsFixed(s, more);
    RunConcat(s0, steps, more);
    SameStoresConverged(s, Run(s, more));
  }

  lemma SameStoresConverged(s: State, t: State)
    requires SameStores(s, t) && Converged(s)
    ensures Converged(t)
  {
    forall n, k | n in t.nodes
      ensures k in t.nodes[n].store <==> exists p :: p in t.nodes && k in t.nodes[p].local
      ensures k in t.nodes[n].store ==> GreatestLocal(t, k, t.nodes[n].store[k].version)
    {
      assert n in s.nodes;
      if k in t.nodes[n].store {
        assert GreatestLocal(s, k, s.nodes[n].store[k].version);
      }
    }
  }

  /** The same fixed point seen as a permanent disagreement: the stores of nodes n and p
      hold different records of k, or only one of them holds k, now and ever after. */
  ghost predicate DisagreesForever(s: State, n: Node, p: Node, k: string) {
    forall steps: seq<Step> :: NoEdits(steps) ==>
      var t := Run(s, steps);
      && n in t.nodes && p in t.nodes
      && Lookup(t.nodes[n].store, k) != Lookup(t.nodes[p].store, k)
  }

  lemma RestDisagrees(s: State, n: Node, p: Node, k: string)
    requires AtRest(s) && n in s.nodes && p in s.nodes && Lookup(s.nodes[n].store, k) != Lookup(s.nodes[p].store, k)
    ensures DisagreesForever(s, n, p, k)
  {
    forall steps: seq<Step> | NoEdits(steps)
      ensures n in Run(s, steps).nodes && p in Run(s, steps).nodes
      ensures Lookup(Run(s, steps).nodes[n].store, k) != Lookup(Run(s, steps).nodes[p].store, k)
    {
      RestIsFixed(s, steps);
    }
  }

  /** The node holds r under k and looks no further: its own store shadows its peers. */
  predicate Shadowed(ns: NodeState, k: string, r: Record) {
    && QuietNode(ns) && k in ns.store && ns.store[k] == r
    && !(ns.phase.Reading? && ns.phase.key == k)
    && (ns.phase.Deciding? || ns.phase.Applying? ==> ns.phase.key == k ==> ns.phase.seen == Some(r))
  }

  lemma ShadowedMoved(s: State, step: Step, k: string, r: Record)
    requires Enabled(s, step) && Shadowed(s.nodes[Actor(step)], k, r) && !step.Edit? && !step.Deliver?
    ensures Shadowed(Moved(s, step), k, r)
    ensures Lookup(Moved(s, step).applied, k) == Lookup(s.nodes[Actor(step)].applied, k) || Lookup(Moved(s, step).applied, k) == Some(r)
  {
    QuietMoved(s, step);
  }

  /** At rest, whatever ticks follow, a node that holds k applies its own stored record of
      it and nothing else, however new its peers' records are. */
  lemma {:induction false} RestServesOwn(s: State, steps: seq<Step>, n: Node, k: string)
    requires AtRest(s) && NoEdits(steps) && n in s.nodes && k in s.nodes[n].store
    ensures var t := Run(s, steps);
            && n in t.nodes && Shadowed(t.nodes[n], k, s.nodes[n].store[k])
            && (Lookup(t.nodes[n].applied, k) == Lookup(s.nodes[n].applied, k) || Lookup(t.nodes[n].applied, k) == Some(s.nodes[n].store[k]))
  {
    hide Moved, Shadowed, Quiet;
    if steps == [] {
      RestShadows(s, n, k);
    } else {
      var front, last := steps[..|steps| - 1], steps[|steps| - 1];
      RestServesOwn(s, front, n, k);
      RestIsFixed(s, front);
      var mid := Run(s, front);
      if Enabled(mid, last) && Actor(last) == n {
        assert mid.net == multiset{};
        ShadowedMoved(mid, last, k, s.nodes[n].store[k]);
      }
    }
  }

  lemma RestShadows(s: State, n: Node, k: string)
    requires AtRest(s) && n in s.nodes && k in s.nodes[n].store
    ensures Shadowed(s.nodes[n], k, s.nodes[n].store[k])
  {
  }

  /** Node n serves r under k, now and ever after. */
  ghost predicate ServesForever(s: State, n: Node, k: string, r: Record) {
    forall steps: seq<Step> :: NoEdits(steps) ==>
      n in Run(s, steps).nodes && Lookup(Run(s, steps).nodes[n].applied, k) == Some(r)
  }

  lemma RestServes(s: State, n: Node, k: string, r: Record)
    requires AtRest(s) && n in s.nodes && Lookup(s.nodes[n].store, k) == Lookup(s.nodes[n].applied, k) == Some(r)
    ensures ServesForever(s, n, k, r)
  {
    forall steps: seq<Step> | NoEdits(steps)
      ensures n in Run(s, steps).nodes && Lookup(Run(s, steps).nodes[n].applied, k) == Some(r)
    {
      RestServesOwn(s, steps, n, k);
    }
  }

  function Asks(n: Node, count: nat): seq<Step> {
    if count == 0 then [] else [Ask(n, false)] + Asks(n, count - 1)
  }

  /** Node n of s, replaced. */
  function With(s: State, n: Node, ns: NodeState): State {
    State(s.nodes[n := ns], s.net)
  }

  lemma RunOne(s: State, step: Step)
    ensures Run(s, [step]) == Next(s, step)
  {
    assert [step][..0] == [];
    assert Run(s, []) == s;
  }

  lemma RunThen(s: State, step: Step, rest: seq<Step>)
    ensures Run(s, [step] + rest) == Run(Next(s, step), rest)
  {
    RunConcat(s, [step], rest);
    RunOne(s, step);
  }

  /** A step that moves n and sends nothing. */
  lemma StepWith(s: State, n: Node, a: NodeState, step: Step, b: NodeState)
    requires n in s.nodes && Actor(step) == n && !step.Put? && !step.Deliver? && !step.Duplicate? && !step.Lose?
    requires Moved(With(s, n, a), step) == b
    ensures Next(With(s, n, a), step) == With(s, n, b)
  {
    assert s.nodes[n := a][n := b] == s.nodes[n := b];
  }

  lemma AskFirst(s: State, n: Node, count: nat)
    ensures Run(s, Asks(n, count + 1)) == Run(Next(s, Ask(n, false)), Asks(n, count))
  {
    assert Asks(n, count + 1) == [Ask(n, false)] + Asks(n, count);
    RunThen(s, Ask(n, false), Asks(n, count));
  }

  lemma RunEmpty(s: State)
    ensures Run(s, []) == s
  {
  }

  lemma AskMisses(s: State, n: Node, a: NodeState, key: string, left: nat) returns (b: NodeState)
    requires n in s.nodes && left <= |a.peers| && a.phase == Reading(key, |a.peers| - left)
    ensures b == a.(phase := if left == 0 then Deciding(key, None) else Reading(key, |a.peers| - left + 1))
    ensures Next(With(s, n, a), Ask(n, false)) == With(s, n, b)
  {
    b := a.(phase := if left == 0 then Deciding(key, None) else Reading(key, |a.peers| - left + 1));
    StepWith(s, n, a, Ask(n, false), b);
  }

  /** With no peer answering, the first Get ends with nothing seen ... */
  lemma {:induction false} GetMisses(s: State, n: Node, a: NodeState, key: string, left: nat)
    requires n in s.nodes && left <= |a.peers| && a.phase == Reading(key, |a.peers| - left)
    ensures Run(With(s, n, a), Asks(n, left + 1)) == With(s, n, a.(phase := Deciding(key, None)))
    decreases left
  {
    hide Run, Next;
    AskFirst(With(s, n, a), n, left);
    var b := AskMisses(s, n, a, key, left);
    if left == 0 {
      RunEmpty(With(s, n, b));
    } else {
      GetMisses(s, n, b, key, left - 1);
    }
  }

  lemma AskMissesAgain(s: State, n: Node, a: NodeState, key: string, seen: Option<Record>, left: nat) returns (b: NodeState)
    requires n in s.nodes && left <= |a.peers| && a.phase == Rereading(key, seen, |a.peers| - left, false)
    ensures b == a.(phase := if left == 0 then Committing(key, seen, false) else Rereading(key, seen, |a.peers| - left + 1, false))
    ensures Next(With(s, n, a), Ask(n, false)) == With(s, n, b)
  {
    b := a.(phase := if left == 0 then Committing(key, seen, false) else Rereading(key, seen, |a.peers| - left + 1, false));
    StepWith(s, n, a, Ask(n, false), b);
  }

  /** ... and the re-check ends with permission to write. */
  lemma {:induction false} RecheckMisses(s: State, n: Node, a: NodeState, key: string, seen: Option<Record>, left: nat)
    requires n in s.nodes && left <= |a.peers| && a.phase == Rereading(key, seen, |a.peers| - left, false)
    ensures Run(With(s, n, a), Asks(n, left + 1)) == With(s, n, a.(phase := Committing(key, seen, false)))
    decreases left
  {
    hide Run, Next;
    AskFirst(With(s, n, a), n, left);
    var b := AskMissesAgain(s, n, a, key, seen, left);
    if left == 0 {
      RunEmpty(With(s, n, b));
    } else {
      RecheckMisses(s, n, b, key, seen, left - 1);
    }
  }

  /** The node at the start of a tick in which the cluster lists no key of its own. */
  function Begun(ns: NodeState): NodeState {
    ns.(tick := Tick(ns.local, ns.local.Keys, true), phase := Visiting)
  }

  /** The node as its own Put finds it. */
  function Poised(ns: NodeState, key: string): NodeState {
    Begun(ns).(phase := Committing(key, Lookup(ns.store, key), false))
  }

  /** The labels that take an idle node with a local record it has not stored up to its Put. */
  function Approach(ns: NodeState, n: Node, key: string): seq<Step> {
    [BeginTick(n, {}), Visit(n, key)] + Gets(ns, n, key) + [Check(n), Recheck(n)] + Gets(ns, n, key)
  }

  /** The peer requests of a Get: none if the own store has the key. */
  function Gets(ns: NodeState, n: Node, key: string): seq<Step> {
    if key in ns.store then [] else Asks(n, |ns.peers| + 1)
  }

  lemma ApproachBegins(s: State, n: Node, ns: NodeState, key: string)
    requires n in s.nodes && ns.phase.Idle? && key in ns.local
    ensures Run(With(s, n, ns), [BeginTick(n, {}), Visit(n, key)] + Gets(ns, n, key))
            == With(s, n, Begun(ns).(phase := Deciding(key, Lookup(ns.store, key))))
  {
    hide Run, Next;
    var a := Begun(ns);
    var b := a.(phase := if key in ns.store then Deciding(key, Some(ns.store[key])) else Reading(key, 0));
    assert ns.local.Keys + {} == ns.local.Keys;
    StepWith(s, n, ns, BeginTick(n, {}), a);
    StepWith(s, n, a, Visit(n, key), b);
    RunThen(With(s, n, ns), BeginTick(n, {}), [Visit(n, key)]);
    RunOne(With(s, n, a), Visit(n, key));
    RunConcat(With(s, n, ns), [BeginTick(n, {}), Visit(n, key)], Gets(ns, n, key));
    assert [BeginTick(n, {})] + [Visit(n, key)] == [BeginTick(n, {}), Visit(n, key)];
    if key in ns.store {
      RunEmpty(With(s, n, b));
    } else {
      GetMisses(s, n, b, key, |ns.peers|);
    }
  }

  lemma ApproachRechecks(s: State, n: Node, ns: NodeState, key: string)
    requires n in s.nodes && key in ns.local && !Holds(ns.store, key, ns.local[key].version)
    ensures Run(With(s, n, Begun(ns).(phase := Deciding(key, Lookup(ns.store, key)))), [Check(n), Recheck(n)] + Gets(ns, n, key))
            == With(s, n, Poised(ns, key))
  {
    hide Run, Next;
    var seen := Lookup(ns.store, key);
    var a := Begun(ns).(phase := Deciding(key, seen));
    var b := a.(phase := Contending(key, seen));
    var c := a.(phase := if key in ns.store then Committing(key, seen, false) else Rereading(key, seen, 0, false));
    StepWith(s, n, a, Check(n), b);
    StepWith(s, n, b, Recheck(n), c);
    RunThen(With(s, n, a), Check(n), [Recheck(n)]);
    RunOne(With(s, n, b), Recheck(n));
    RunConcat(With(s, n, a), [Check(n), Recheck(n)], Gets(ns, n, key));
    assert [Check(n)] + [Recheck(n)] == [Check(n), Recheck(n)];
    if key in ns.store {
      RunEmpty(With(s, n, c));
    } else {
      RecheckMisses(s, n, c, key, seen, |ns.peers|);
    }
  }

  lemma ApproachReaches(s: State, n: Node, key: string)
    requires n in s.nodes && s.nodes[n].phase.Idle? && key in s.nodes[n].local
    requires !Holds(s.nodes[n].store, key, s.nodes[n].local[key].version)
    ensures Run(s, Approach(s.nodes[n], n, key)) == With(s, n, Poised(s.nodes[n], key))
  {
    hide Run;
    var ns := s.nodes[n];
    assert With(s, n, ns) == s;
    var first := [BeginTick(n, {}), Visit(n, key)] + Gets(ns, n, key);
    var second := [Check(n), Recheck(n)] + Gets(ns, n, key);
    ApproachBegins(s, n, ns, key);
    ApproachRechecks(s, n, ns, key);
    RunConcat(s, first, second);
    assert Approach(ns, n, key) == first + second;
  }

  lemma {:induction false} AsksNoEdits(n: Node, count: nat)
    ensures NoEdits(Asks(n, count))
  {
    if count > 0 {
      AsksNoEdits(n, count - 1);
    }
  }

  /** The fixed points exactly: an idle system with nothing in flight never changes a
      store again if and only if every own store is at least as new as the node's files. */
  lemma FixedIff(s: State)
    requires s.net == multiset{} && forall n :: n in s.nodes ==> s.nodes[n].phase.Idle?
    ensures (forall steps: seq<Step> :: NoEdits(steps) ==> SameStores(s, Run(s, steps)))
            <==> forall n :: n in s.nodes ==> OwnNewest(s.nodes[n])
  {
    if forall n :: n in s.nodes ==> OwnNewest(s.nodes[n]) {
      forall steps: seq<Step> | NoEdits(steps) ensures SameStores(s, Run(s, steps)) {
        RestIsFixed(s, steps);
      }
    } else {
      var n, k :| n in s.nodes && k in s.nodes[n].local && !Holds(s.nodes[n].store, k, s.nodes[n].local[k].version);
      var steps := OlderStoreMoves(s, n, k);
    }
  }

  lemma ApproachNoEdits(ns: NodeState, n: Node, key: string)
    ensures NoEdits(Approach(ns, n, key) + [Put(n)])
  {
    AsksNoEdits(n, |ns.peers| + 1);
    assert NoEdits(Gets(ns, n, key));
  }

  lemma PoisedPuts(s: State, n: Node, key: string)
    requires n in s.nodes && key in s.nodes[n].local
    ensures var t := Next(With(s, n, Poised(s.nodes[n], key)), Put(n));
            n in t.nodes && key in t.nodes[n].store && t.nodes[n].store[key] == s.nodes[n].local[key]
  {
  }

  lemma OlderStoreMoves(s: State, n: Node, k: string) returns (steps: seq<Step>)
    requires n in s.nodes && s.nodes[n].phase.Idle? && k in s.nodes[n].local
    requires !Holds(s.nodes[n].store, k, s.nodes[n].local[k].version)
    ensures NoEdits(steps) && !SameStores(s, Run(s, steps))
  {
    var approach := Approach(s.nodes[n], n, k);
    steps := approach + [Put(n)];
    ApproachNoEdits(s.nodes[n], n, k);
    ApproachReaches(s, n, k);
    RunConcat(s, approach, [Put(n)]);
    RunOne(Run(s, approach), Put(n));
    PoisedPuts(s, n, k);
    AtMostReflexive(s.nodes[n].local[k].version);
  }
}
