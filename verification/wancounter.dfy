/** The hypotheses of convergence are needed: a lost fan-out, or a delivery inside
    the publish window, leaves two nodes in disagreement for good. */
module WanDisagreement {
  import opened Versions
  import opened Wan
  import opened WanSafety
  import opened WanConvergence
  import opened WanFixedPoints
  import opened WanMissed

  function Fresh(peer: Node, local: map<string, Record>): NodeState {
    NodeState([peer], local, map[], Tick(map[], {}, false), Idle, map[], false)
  }

  /** Two nodes, each the other's peer. */
  function Pair(a: NodeState, b: NodeState, net: multiset<Msg>): State {
    State(map[0 := a, 1 := b], net)
  }

  /** Node state after its only key has been published and its tick has ended. */
  function Finished(ns: NodeState, k: string, r: Record): NodeState {
    ns.(store := map[k := r], tick := Tick(ns.local, {}, true), phase := Idle, applied := map[k := r], synced := true)
  }

  /** The node right after its Put. */
  function Put1(ns: NodeState, k: string, r: Record): NodeState {
    Begun(ns).(store := map[k := r], phase := Applying(k, Lookup(ns.store, k)))
  }

  /** Steps of either node of a pair. */
  lemma Step0(a: NodeState, b: NodeState, net: multiset<Msg>, step: Step, a': NodeState, net': multiset<Msg>)
    requires Actor(step) == 0 && Enabled(Pair(a, b, net), step)
    requires Moved(Pair(a, b, net), step) == a' && NetAfter(Pair(a, b, net), step) == net'
    ensures Next(Pair(a, b, net), step) == Pair(a', b, net')
  {
    assert map[0 := a, 1 := b][0 := a'] == map[0 := a', 1 := b];
  }

  lemma Step1(a: NodeState, b: NodeState, net: multiset<Msg>, step: Step, b': NodeState, net': multiset<Msg>)
    requires Actor(step) == 1 && Enabled(Pair(a, b, net), step)
    requires Moved(Pair(a, b, net), step) == b' && NetAfter(Pair(a, b, net), step) == net'
    ensures Next(Pair(a, b, net), step) == Pair(a, b', net')
  {
    assert map[0 := a, 1 := b][1 := b'] == map[0 := a, 1 := b'];
  }

  /** An idle node about to publish its only key. */
  predicate Publishing(a: NodeState, k: string, r: Record) {
    && a.local == map[k := r] && a.applied.Keys <= {k} && a.phase.Idle?
    && a.store.Keys <= {k} && !Holds(a.store, k, r.version)
  }

  /** Applying and ending the tick after the Put of the only key. */
  lemma FinishNode(a: NodeState, k: string, r: Record)
    requires Publishing(a, k, r)
    ensures DoEnd(DoApply(Put1(a, k, r))) == Finished(a, k, r)
  {
    assert a.local.Keys - {k} == {};
    assert a.applied[k := r] == map[k := r];
  }

  lemma PutNode(a: NodeState, k: string, r: Record, seen: Option<Record>, raced: bool)
    requires a.local == map[k := r] && a.store.Keys <= {k}
    ensures DoPut(Begun(a).(phase := Committing(k, seen, raced))) == Begun(a).(store := map[k := r], phase := Applying(k, seen))
  {
    assert a.store[k := r] == map[k := r];
  }

  lemma FanOutOne(p: Node, r: Record)
    ensures FanOut([p], r) == multiset{Msg(p, r)}
  {
    assert FanOut([], r) == multiset{};
  }

  /** A Put of either node sends one message. */
  lemma PutFirst(p: NodeState, b: NodeState, r: Record)
    requires CanPut(p) && Published(p) == r && p.peers == [1]
    ensures Next(Pair(p, b, multiset{}), Put(0)) == Pair(DoPut(p), b, multiset{Msg(1, r)})
  {
    FanOutOne(1, r);
    Step0(p, b, multiset{}, Put(0), DoPut(p), multiset{Msg(1, r)});
  }

  lemma PutSecond(a: NodeState, p: NodeState, r: Record)
    requires CanPut(p) && Published(p) == r && p.peers == [0]
    ensures Next(Pair(a, p, multiset{}), Put(1)) == Pair(a, DoPut(p), multiset{Msg(0, r)})
  {
    FanOutOne(0, r);
    Step1(a, p, multiset{}, Put(1), DoPut(p), multiset{Msg(0, r)});
  }

  lemma DeliverFirst(a: NodeState, b: NodeState, r: Record)
    ensures Next(Pair(a, b, multiset{Msg(0, r)}), Deliver(Msg(0, r))) == Pair(DoDeliver(a, r), b, multiset{})
  {
    Step0(a, b, multiset{Msg(0, r)}, Deliver(Msg(0, r)), DoDeliver(a, r), multiset{});
  }

  lemma DeliverSecond(a: NodeState, b: NodeState, r: Record)
    ensures Next(Pair(a, b, multiset{Msg(1, r)}), Deliver(Msg(1, r))) == Pair(a, DoDeliver(b, r), multiset{})
  {
    Step1(a, b, multiset{Msg(1, r)}, Deliver(Msg(1, r)), DoDeliver(b, r), multiset{});
  }

  lemma RunTwo(s: State, x: Step, y: Step)
    ensures Run(s, [x, y]) == Next(Next(s, x), y)
  {
    RunThen(s, x, [y]);
    assert [x, y] == [x] + [y];
    RunOne(Next(s, x), y);
  }

  lemma PairInit(a: NodeState, b: NodeState, x: map<string, Record>, y: map<string, Record>)
    requires a == Fresh(1, x) && b == Fresh(0, y) && Keyed(x) && Keyed(y)
    ensures Init(Pair(a, b, multiset{})) && Meshed(Pair(a, b, multiset{}))
  {
    hide Meshed;
    PairMeshed(a, b);
    var s := Pair(a, b, multiset{});
    assert s.nodes.Keys == {0, 1} && s.nodes[0] == a && s.nodes[1] == b;
  }

  lemma PairMeshed(a: NodeState, b: NodeState)
    requires a.peers == [1] && b.peers == [0]
    ensures Meshed(Pair(a, b, multiset{}))
  {
    var s := Pair(a, b, multiset{});
    assert forall n :: n in s.nodes ==> n == 0 || n == 1;
    assert 1 in s.nodes[0].peers && 0 in s.nodes[1].peers;
  }

  function Tail(n: Node): seq<Step> { [Apply(n), EndTick(n)] }

  lemma FinishFirst(a: NodeState, b: NodeState, k: string, r: Record)
    requires Publishing(a, k, r)
    ensures Run(Pair(Put1(a, k, r), b, multiset{}), Tail(0)) == Pair(Finished(a, k, r), b, multiset{})
  {
    hide Run, Next;
    var p := Put1(a, k, r);
    assert Tail(0) == [Apply(0)] + [EndTick(0)];
    RunThen(Pair(p, b, multiset{}), Apply(0), [EndTick(0)]);
    Step0(p, b, multiset{}, Apply(0), DoApply(p), multiset{});
    RunOne(Pair(DoApply(p), b, multiset{}), EndTick(0));
    Step0(DoApply(p), b, multiset{}, EndTick(0), DoEnd(DoApply(p)), multiset{});
    FinishNode(a, k, r);
  }

  lemma FinishSecond(a: NodeState, b: NodeState, k: string, r: Record)
    requires Publishing(b, k, r)
    ensures Run(Pair(a, Put1(b, k, r), multiset{}), Tail(1)) == Pair(a, Finished(b, k, r), multiset{})
  {
    hide Run, Next;
    var p := Put1(b, k, r);
    assert Tail(1) == [Apply(1)] + [EndTick(1)];
    RunThen(Pair(a, p, multiset{}), Apply(1), [EndTick(1)]);
    Step1(a, p, multiset{}, Apply(1), DoApply(p), multiset{});
    RunOne(Pair(a, DoApply(p), multiset{}), EndTick(1));
    Step1(a, DoApply(p), multiset{}, EndTick(1), DoEnd(DoApply(p)), multiset{});
    FinishNode(b, k, r);
  }

  /** Node 0 writes and its message is lost. */
  lemma PutAndLose(a: NodeState, b: NodeState, k: string, r: Record)
    requires a.local == map[k := r] && a.store.Keys <= {k} && a.peers == [1]
    ensures Run(Pair(Poised(a, k), b, multiset{}), [Put(0), Lose(Msg(1, r))]) == Pair(Put1(a, k, r), b, multiset{})
  {
    RunTwo(Pair(Poised(a, k), b, multiset{}), Put(0), Lose(Msg(1, r)));
    PutNode(a, k, r, Lookup(a.store, k), false);
    PutFirst(Poised(a, k), b, r);
    Step1(Put1(a, k, r), b, multiset{Msg(1, r)}, Lose(Msg(1, r)), b, multiset{});
  }

  /** A receive-only node ticks when nobody lists a key for it. */
  lemma EmptyTick(a: NodeState, b: NodeState)
    requires b.local == map[] && b.phase.Idle?
    ensures Run(Pair(a, b, multiset{}), [BeginTick(1, {}), EndTick(1)])
            == Pair(a, b.(tick := Tick(map[], {}, true), synced := true), multiset{})
  {
    var c := b.(tick := Tick(map[], {}, true), phase := Visiting);
    RunThen(Pair(a, b, multiset{}), BeginTick(1, {}), [EndTick(1)]);
    assert b.local.Keys + {} == {};
    Step1(a, b, multiset{}, BeginTick(1, {}), c, multiset{});
    RunOne(Pair(a, c, multiset{}), EndTick(1));
    Step1(a, c, multiset{}, EndTick(1), b.(tick := Tick(map[], {}, true), synced := true), multiset{});
  }

  /** No file changes and no losses; with `quiet`, no deliveries either. */
  predicate Plain(steps: seq<Step>, quiet: bool) {
    forall i :: 0 <= i < |steps| ==> !steps[i].Edit? && !steps[i].Lose? && (quiet ==> !steps[i].Deliver?)
  }

  lemma {:induction false} AsksPlain(n: Node, count: nat)
    ensures Plain(Asks(n, count), true)
  {
    if count > 0 {
      AsksPlain(n, count - 1);
    }
  }

  lemma ApproachPlain(ns: NodeState, n: Node, k: string)
    ensures Plain(Approach(ns, n, k), true)
  {
    AsksPlain(n, |ns.peers| + 1);
    assert Plain(Gets(ns, n, k), true);
  }

  function LossyRun(k: string, r: Record): seq<Step> {
    Approach(Fresh(1, map[k := r]), 0, k) + [Put(0), Lose(Msg(1, r))] + Tail(0) + [BeginTick(1, {}), EndTick(1)]
  }

  /** The loss is the only thing out of the ordinary: no delivery happens, so no race either. */
  lemma LossyRunOtherwiseCalm(k: string, r: Record)
    ensures forall i :: 0 <= i < |LossyRun(k, r)| ==>
              !LossyRun(k, r)[i].Edit? && !LossyRun(k, r)[i].Deliver? &&
              (LossyRun(k, r)[i].Lose? ==> LossyRun(k, r)[i] == Lose(Msg(1, r)))
  {
    ApproachPlain(Fresh(1, map[k := r]), 0, k);
  }

  lemma LossyRunEnds(a: NodeState, b: NodeState, k: string, r: Record)
    requires a == Fresh(1, map[k := r]) && b == Fresh(0, map[])
    ensures Run(Pair(a, b, multiset{}), LossyRun(k, r))
            == Pair(Finished(a, k, r), b.(tick := Tick(map[], {}, true), synced := true), multiset{})
  {
    var s0 := Pair(a, b, multiset{});
    var r1 := Approach(a, 0, k);
    var r2 := r1 + [Put(0), Lose(Msg(1, r))];
    ApproachReaches(s0, 0, k);
    assert With(s0, 0, Poised(a, k)) == Pair(Poised(a, k), b, multiset{});
    PutAndLose(a, b, k, r);
    FinishFirst(a, b, k, r);
    EmptyTick(Finished(a, k, r), b);
    RunConcat(s0, r1, [Put(0), Lose(Msg(1, r))]);
    RunConcat(s0, r2, Tail(0));
    RunConcat(s0, r2 + Tail(0), [BeginTick(1, {}), EndTick(1)]);
  }

  /** Losing one fan-out: every node has ticked and nothing is in flight, yet the second
      node's store never gets the record, however many ticks follow. */
  lemma LostFanOutIsPermanent(k: string, r: Record)
    requires r.key == k
    ensures var s0 := Pair(Fresh(1, map[k := r]), Fresh(0, map[]), multiset{});
            var s := Run(s0, LossyRun(k, r));
            && Init(s0) && Meshed(s0) && Settled(s) && AtRest(s) && !Converged(s)
            && DisagreesForever(s, 0, 1, k) && NeverGets(s, 1, k, r.version)
  {
    var a, b := Fresh(1, map[k := r]), Fresh(0, map[]);
    PairInit(a, b, map[k := r], map[]);
    LossyRunEnds(a, b, k, r);
    var a', b' := Finished(a, k, r), b.(tick := Tick(map[], {}, true), synced := true);
    LossyEnd(a', b', k, r);
    PairMisses(a', b', 1, k, r.version);
  }

  lemma LossyEnd(a: NodeState, b: NodeState, k: string, r: Record)
    requires a.local == a.store == map[k := r] && b.local == b.store == map[]
    requires a.phase.Idle? && b.phase.Idle? && a.synced && b.synced
    ensures var s := Pair(a, b, multiset{}); Settled(s) && AtRest(s) && !Converged(s) && DisagreesForever(s, 0, 1, k)
  {
    var s := Pair(a, b, multiset{});
    AtMostReflexive(r.version);
    PairRests(a, b);
    RestDisagrees(s, 0, 1, k);
    assert 0 in s.nodes && k in s.nodes[0].local && 1 in s.nodes && k !in s.nodes[1].store;
  }

  lemma PairWith(a: NodeState, b: NodeState, a': NodeState, b': NodeState)
    ensures With(Pair(a, b, multiset{}), 0, a') == Pair(a', b, multiset{})
    ensures With(Pair(a, b, multiset{}), 1, b') == Pair(a, b', multiset{})
  {
    assert map[0 := a, 1 := b][0 := a'] == map[0 := a', 1 := b];
    assert map[0 := a, 1 := b][1 := b'] == map[0 := a, 1 := b'];
  }

  /** Both nodes have the key; each re-checks before the other has written. */
  lemma BothPoised(a: NodeState, b: NodeState, k: string)
    requires a.phase.Idle? && b.phase.Idle? && k in a.local && k in b.local && a.store == b.store == map[]
    ensures Run(Pair(a, b, multiset{}), Approach(a, 0, k) + Approach(b, 1, k))
            == Pair(Poised(a, k), Poised(b, k), multiset{})
  {
    var s := Pair(a, b, multiset{});
    var t := Pair(Poised(a, k), b, multiset{});
    ApproachReaches(s, 0, k);
    PairWith(a, b, Poised(a, k), b);
    ApproachReaches(t, 1, k);
    PairWith(Poised(a, k), b, Poised(a, k), Poised(b, k));
    RunConcat(s, Approach(a, 0, k), Approach(b, 1, k));
  }

  /** Node 0 after the newer record has reached it inside its window. */
  function Overtaken(a: NodeState, k: string, r: Record): NodeState {
    Poised(a, k).(store := map[k := r], phase := Committing(k, None, true))
  }

  /** Node 1 writes the newer record; it reaches node 0 between that node's re-check and Put. */
  lemma NewerArrives(a: NodeState, b: NodeState, k: string, r: Record)
    requires r.key == k && b.local == map[k := r] && a.store == b.store == map[] && b.peers == [0]
    ensures Run(Pair(Poised(a, k), Poised(b, k), multiset{}), [Put(1), Deliver(Msg(0, r))])
            == Pair(Overtaken(a, k, r), Put1(b, k, r), multiset{})
  {
    hide Run, Next;
    RunTwo(Pair(Poised(a, k), Poised(b, k), multiset{}), Put(1), Deliver(Msg(0, r)));
    PutNode(b, k, r, None, false);
    PutSecond(Poised(a, k), Poised(b, k), r);
    DeliverFirst(Poised(a, k), Put1(b, k, r), r);
    assert DoDeliver(Poised(a, k), r) == Overtaken(a, k, r);
  }

  lemma OvertakenPuts(a: NodeState, k: string, r: Record, older: Record)
    requires a.local == map[k := older] && a.store == map[]
    ensures CanPut(Overtaken(a, k, r)) && Published(Overtaken(a, k, r)) == older
    ensures DoPut(Overtaken(a, k, r)) == Put1(a, k, older)
  {
    PutNode(a.(store := map[k := r]), k, older, None, true);
  }

  lemma RefusedNode(b: NodeState, k: string, r: Record, older: Record)
    requires older.key == k && Newer(r.version, older.version)
    ensures DoDeliver(Put1(b, k, r), older) == Put1(b, k, r)
  {
    NewerGivesAtMost(r.version, older.version);
  }

  /** Node 0 then overwrites it with the older record; the fan-out of that is refused. */
  lemma OlderOverwrites(a: NodeState, b: NodeState, k: string, r: Record, older: Record)
    requires older.key == k && Newer(r.version, older.version) && a.local == map[k := older] && a.store == map[] && a.peers == [1]
    ensures Run(Pair(Overtaken(a, k, r), Put1(b, k, r), multiset{}), [Put(0), Deliver(Msg(1, older))])
            == Pair(Put1(a, k, older), Put1(b, k, r), multiset{})
  {
    var p, q := Overtaken(a, k, r), Put1(b, k, r);
    RunTwo(Pair(p, q, multiset{}), Put(0), Deliver(Msg(1, older)));
    OvertakenPuts(a, k, r, older);
    PutFirst(p, q, older);
    DeliverSecond(Put1(a, k, older), q, older);
    RefusedNode(b, k, r, older);
  }

  function RacyRun(k: string, older: Record, newer: Record): seq<Step> {
    Approach(Fresh(1, map[k := older]), 0, k) + Approach(Fresh(0, map[k := newer]), 1, k)
    + [Put(1), Deliver(Msg(0, newer))] + [Put(0), Deliver(Msg(1, older))] + Tail(0) + Tail(1)
  }

  /** The race is the only thing out of the ordinary. */
  lemma RacyRunOtherwiseCalm(k: string, older: Record, newer: Record)
    ensures Plain(RacyRun(k, older, newer), false)
  {
    ApproachPlain(Fresh(1, map[k := older]), 0, k);
    ApproachPlain(Fresh(0, map[k := newer]), 1, k);
  }

  lemma RacyRunEnds(a: NodeState, b: NodeState, k: string, older: Record, newer: Record)
    requires older.key == k && newer.key == k && Newer(newer.version, older.version)
    requires a == Fresh(1, map[k := older]) && b == Fresh(0, map[k := newer])
    ensures Run(Pair(a, b, multiset{}), RacyRun(k, older, newer)) == Pair(Finished(a, k, older), Finished(b, k, newer), multiset{})
  {
    var s0 := Pair(a, b, multiset{});
    var r1 := Approach(a, 0, k) + Approach(b, 1, k);
    var r2 := r1 + [Put(1), Deliver(Msg(0, newer))];
    var r3 := r2 + [Put(0), Deliver(Msg(1, older))];
    BothPoised(a, b, k);
    NewerArrives(a, b, k, newer);
    OlderOverwrites(a, b, k, newer, older);
    FinishFirst(a, Put1(b, k, newer), k, older);
    FinishSecond(Finished(a, k, older), b, k, newer);
    RunConcat(s0, r1, [Put(1), Deliver(Msg(0, newer))]);
    RunConcat(s0, r2, [Put(0), Deliver(Msg(1, older))]);
    RunConcat(s0, r3, Tail(0));
    RunConcat(s0, r3 + Tail(0), Tail(1));
  }

  /** A delivery inside the window: nothing is lost and every node has ticked, yet the
      first node keeps and serves the older record and the second the newer one for good. */
  lemma RaceIsPermanent(k: string, older: Record, newer: Record)
    requires older.key == k && newer.key == k && Newer(newer.version, older.version)
    ensures var s0 := Pair(Fresh(1, map[k := older]), Fresh(0, map[k := newer]), multiset{});
            var s := Run(s0, RacyRun(k, older, newer));
            && Init(s0) && Meshed(s0) && Settled(s) && AtRest(s) && !Converged(s) && DisagreesForever(s, 0, 1, k)
            && NeverGets(s, 0, k, newer.version) && ServesForever(s, 0, k, older) && ServesForever(s, 1, k, newer)
  {
    var a, b := Fresh(1, map[k := older]), Fresh(0, map[k := newer]);
    PairInit(a, b, map[k := older], map[k := newer]);
    RacyRunEnds(a, b, k, older, newer);
    var a', b' := Finished(a, k, older), Finished(b, k, newer);
    RacyEnd(a', b', k, older, newer);
    PairServes(a', b', k, older, newer);
    PairMisses(a', b', 0, k, newer.version);
  }

  lemma RacyEnd(a: NodeState, b: NodeState, k: string, older: Record, newer: Record)
    requires Newer(newer.version, older.version)
    requires a.local == a.store == map[k := older] && b.local == b.store == map[k := newer]
    requires a.phase.Idle? && b.phase.Idle? && a.synced && b.synced
    ensures var s := Pair(a, b, multiset{}); Settled(s) && AtRest(s) && !Converged(s) && DisagreesForever(s, 0, 1, k)
  {
    AtMostReflexive(older.version);
    AtMostReflexive(newer.version);
    PairRests(a, b);
    RestDisagrees(Pair(a, b, multiset{}), 0, 1, k);
    NotGreatest(a, b, k);
  }

  /** At rest both nodes have published, so what one of them has missed it never gets. */
  lemma PairMisses(a: NodeState, b: NodeState, p: Node, k: string, v: Version)
    requires AtRest(Pair(a, b, multiset{})) && Keyed(a.local) && Keyed(b.local) && a.peers == [1] && b.peers == [0]
    requires p in {0, 1} && !Holds((if p == 0 then a else b).store, k, v)
    ensures NeverGets(Pair(a, b, multiset{}), p, k, v)
  {
    hide NeverGets;
    PairMeshed(a, b);
    MissedForeverIff(Pair(a, b, multiset{}), p, k, v);
  }

  lemma PairServes(a: NodeState, b: NodeState, k: string, x: Record, y: Record)
    requires AtRest(Pair(a, b, multiset{})) && a.store == a.applied == map[k := x] && b.store == b.applied == map[k := y]
    ensures ServesForever(Pair(a, b, multiset{}), 0, k, x) && ServesForever(Pair(a, b, multiset{}), 1, k, y)
  {
    RestServes(Pair(a, b, multiset{}), 0, k, x);
    RestServes(Pair(a, b, multiset{}), 1, k, y);
  }

  lemma PairRests(a: NodeState, b: NodeState)
    requires OwnNewest(a) && OwnNewest(b) && a.phase.Idle? && b.phase.Idle? && a.synced && b.synced
    ensures Settled(Pair(a, b, multiset{})) && AtRest(Pair(a, b, multiset{}))
  {
  }

  lemma NotGreatest(a: NodeState, b: NodeState, k: string)
    requires k in a.store && k in b.local && Newer(b.local[k].version, a.store[k].version)
    ensures !Converged(Pair(a, b, multiset{}))
  {
    var s := Pair(a, b, multiset{});
    assert 0 in s.nodes && 1 in s.nodes && s.nodes[0] == a && s.nodes[1] == b;
    assert !GreatestLocal(s, k, s.nodes[0].store[k].version);
  }
}
