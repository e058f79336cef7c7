/** What a lost fan-out does to a node that only receives: with nothing in its store it
    is served through its peers all the same, but with an older record there it serves
    that one for good. */
module WanRenewal {
  import opened Versions
  import opened Wan
  import opened WanConvergence
  import opened WanFixedPoints
  import opened WanDisagreement
  import opened WanMissed

  /** A tick of node 1 in which its peers list k and answer. */
  function PeerTick(k: string): seq<Step> {
    [BeginTick(1, {k})] + ([Visit(1, k)] + ([Ask(1, true)] + ([Check(1)] + [Apply(1)])))
  }

  /** Node 1, which has no files, begins a tick and looks for k. */
  function Looking(b: NodeState, k: string): NodeState {
    b.(tick := Tick(map[], {k}, true), phase := if k in b.store then Deciding(k, Some(b.store[k])) else Reading(k, 0))
  }

  lemma TickLooks(a: NodeState, b: NodeState, k: string, rest: seq<Step>)
    requires b.local == map[] && b.phase.Idle?
    ensures Run(Pair(a, b, multiset{}), [BeginTick(1, {k})] + ([Visit(1, k)] + rest)) == Run(Pair(a, Looking(b, k), multiset{}), rest)
  {
    hide Run, Next;
    var none: multiset<Msg> := multiset{};
    var b' := b.(tick := Tick(map[], {k}, true), phase := Visiting);
    assert b.local.Keys + {k} == {k};
    Step1(a, b, none, BeginTick(1, {k}), b', none);
    Step1(a, b', none, Visit(1, k), Looking(b, k), none);
    RunThen(Pair(a, b, none), BeginTick(1, {k}), [Visit(1, k)] + rest);
    RunThen(Pair(a, b', none), Visit(1, k), rest);
  }

  /** A step of node 1 that sends nothing, at the head of a run. */
  lemma Then1(a: NodeState, b: NodeState, step: Step, b': NodeState, rest: seq<Step>)
    requires Actor(step) == 1 && !step.Put? && !step.Deliver? && !step.Duplicate? && !step.Lose?
    requires Moved(Pair(a, b, multiset{}), step) == b'
    ensures Run(Pair(a, b, multiset{}), [step] + rest) == Run(Pair(a, b', multiset{}), rest)
  {
    hide Run, Next, Moved;
    RunThen(Pair(a, b, multiset{}), step, rest);
    Step1(a, b, multiset{}, step, b', multiset{});
  }

  lemma AskThen(a: NodeState, b: NodeState, k: string, r: Record, rest: seq<Step>)
    requires b.phase == Reading(k, 0) && b.peers == [0] && k in a.store && a.store[k] == r
    ensures Run(Pair(a, b, multiset{}), [Ask(1, true)] + rest) == Run(Pair(a, b.(phase := Deciding(k, Some(r))), multiset{}), rest)
  {
    hide Run;
    Then1(a, b, Ask(1, true), b.(phase := Deciding(k, Some(r))), rest);
  }

  /** A node without a local record passes the check by and applies what it saw. */
  lemma CheckThen(a: NodeState, b: NodeState, k: string, r: Record, rest: seq<Step>)
    requires b.phase == Deciding(k, Some(r)) && k !in b.tick.locals
    ensures Run(Pair(a, b, multiset{}), [Check(1)] + rest) == Run(Pair(a, b.(phase := Applying(k, Some(r))), multiset{}), rest)
  {
    hide Run;
    Then1(a, b, Check(1), b.(phase := Applying(k, Some(r))), rest);
  }

  lemma ApplyThen(a: NodeState, b: NodeState, k: string, r: Record, rest: seq<Step>)
    requires b.phase == Applying(k, Some(r)) && k !in b.tick.locals
    ensures Run(Pair(a, b, multiset{}), [Apply(1)] + rest)
            == Run(Pair(a, b.(applied := b.applied[k := r], tick := b.tick.(todo := b.tick.todo - {k}), phase := Visiting), multiset{}), rest)
  {
    hide Run;
    Then1(a, b, Apply(1), b.(applied := b.applied[k := r], tick := b.tick.(todo := b.tick.todo - {k}), phase := Visiting), rest);
  }

  lemma PeerTickServes(a: NodeState, b: NodeState, k: string, r: Record)
    requires k in a.store && a.store[k] == r && b.local == map[] && k !in b.store && b.phase.Idle? && b.peers == [0]
    ensures var s := Run(Pair(a, b, multiset{}), PeerTick(k));
            1 in s.nodes && Lookup(s.nodes[1].applied, k) == Some(r)
  {
    hide Run;
    var b' := Looking(b, k);
    assert [Apply(1)] + [] == [Apply(1)];
    TickLooks(a, b, k, [Ask(1, true)] + ([Check(1)] + [Apply(1)]));
    AskThen(a, b', k, r, [Check(1)] + [Apply(1)]);
    CheckThen(a, b'.(phase := Deciding(k, Some(r))), k, r, [Apply(1)]);
    ApplyThen(a, b'.(phase := Applying(k, Some(r))), k, r, []);
    RunEmpty(Pair(a, b'.(applied := b'.applied[k := r], tick := b'.tick.(todo := b'.tick.todo - {k}), phase := Visiting), multiset{}));
  }

  /** The harmless half of a lost fan-out: after the run that leaves the second store empty
      for good, a tick of that node still serves the record, read from its peer. */
  lemma LostFanOutStillServed(k: string, r: Record)
    requires r.key == k
    ensures var s0 := Pair(Fresh(1, map[k := r]), Fresh(0, map[]), multiset{});
            var s := Run(s0, LossyRun(k, r) + PeerTick(k));
            1 in s.nodes && Lookup(s.nodes[1].applied, k) == Some(r)
  {
    hide Run;
    var a, b := Fresh(1, map[k := r]), Fresh(0, map[]);
    LossyRunEnds(a, b, k, r);
    RunConcat(Pair(a, b, multiset{}), LossyRun(k, r), PeerTick(k));
    PeerTickServes(Finished(a, k, r), b.(tick := Tick(map[], {}, true), synced := true), k, r);
  }

  /** A tick of node 1 that finds k in its own store. */
  function OwnTick(k: string): seq<Step> {
    [BeginTick(1, {k})] + ([Visit(1, k)] + ([Check(1)] + Tail(1)))
  }

  /** Node 1 after it has received r and ticked. */
  function Received(b: NodeState, k: string, r: Record): NodeState {
    b.(store := map[k := r], tick := Tick(map[], {}, true), applied := map[k := r], synced := true)
  }

  lemma OwnTickServes(a: NodeState, b: NodeState, k: string, r: Record)
    requires b == Fresh(0, map[])
    ensures Run(Pair(a, b.(store := map[k := r]), multiset{}), OwnTick(k)) == Pair(a, Received(b, k, r), multiset{})
  {
    hide Run;
    var b0 := b.(store := map[k := r]);
    var b' := Looking(b0, k);
    var done := b'.(tick := Tick(map[], {}, true), applied := map[k := r], phase := Visiting);
    assert b0.applied[k := r] == map[k := r] && b'.tick.todo - {k} == {};
    assert Tail(1) == [Apply(1)] + [EndTick(1)] && [EndTick(1)] + [] == [EndTick(1)];
    TickLooks(a, b0, k, [Check(1)] + Tail(1));
    CheckThen(a, b', k, r, Tail(1));
    ApplyThen(a, b'.(phase := Applying(k, Some(r))), k, r, [EndTick(1)]);
    Then1(a, done, EndTick(1), Received(b, k, r), []);
    RunEmpty(Pair(a, Received(b, k, r), multiset{}));
  }

  /** Node 0 writes and its message arrives. */
  lemma PutAndDeliver(a: NodeState, b: NodeState, k: string, r: Record)
    requires a == Fresh(1, map[k := r]) && b == Fresh(0, map[]) && r.key == k
    ensures Run(Pair(Poised(a, k), b, multiset{}), [Put(0), Deliver(Msg(1, r))])
            == Pair(Put1(a, k, r), b.(store := map[k := r]), multiset{})
  {
    hide Run, Next;
    RunTwo(Pair(Poised(a, k), b, multiset{}), Put(0), Deliver(Msg(1, r)));
    PutNode(a, k, r, None, false);
    PutFirst(Poised(a, k), b, r);
    DeliverSecond(Put1(a, k, r), b, r);
    assert b.store[k := r] == map[k := r];
  }

  /** The first certificate reaches node 1, which serves it. */
  function FirstIssue(k: string, older: Record): seq<Step> {
    Approach(Fresh(1, map[k := older]), 0, k) + [Put(0), Deliver(Msg(1, older))] + Tail(0) + OwnTick(k)
  }

  lemma FirstIssueEnds(a: NodeState, b: NodeState, k: string, older: Record)
    requires a == Fresh(1, map[k := older]) && b == Fresh(0, map[]) && older.key == k
    ensures Run(Pair(a, b, multiset{}), FirstIssue(k, older)) == Pair(Finished(a, k, older), Received(b, k, older), multiset{})
  {
    hide Run, Next, OwnTick;
    var s0 := Pair(a, b, multiset{});
    var r1 := Approach(a, 0, k);
    var r2 := r1 + [Put(0), Deliver(Msg(1, older))];
    ApproachReaches(s0, 0, k);
    PairWith(a, b, Poised(a, k), b);
    PutAndDeliver(a, b, k, older);
    FinishFirst(a, b.(store := map[k := older]), k, older);
    OwnTickServes(Finished(a, k, older), b, k, older);
    RunConcat(s0, r1, [Put(0), Deliver(Msg(1, older))]);
    RunConcat(s0, r2, Tail(0));
    RunConcat(s0, r2 + Tail(0), OwnTick(k));
  }

  /** Node 0's files are renewed. */
  function Renewed(a: NodeState, k: string, newer: Record): NodeState {
    a.(local := map[k := newer], synced := false, tick := a.tick.(current := false))
  }

  /** Its next tick publishes the renewal, and the fan-out is lost. */
  function LostRenewal(a: NodeState, k: string, newer: Record): seq<Step> {
    [Edit(0, map[k := newer])] + (Approach(Renewed(a, k, newer), 0, k) + [Put(0), Lose(Msg(1, newer))] + Tail(0))
  }

  lemma LostRenewalEnds(a: NodeState, b: NodeState, k: string, older: Record, newer: Record)
    requires a.store == a.applied == map[k := older] && a.phase.Idle? && a.peers == [1]
    requires newer.key == k && Newer(newer.version, older.version)
    ensures Run(Pair(a, b, multiset{}), LostRenewal(a, k, newer)) == Pair(Finished(Renewed(a, k, newer), k, newer), b, multiset{})
  {
    hide Run, Next, Approach;
    var a' := Renewed(a, k, newer);
    var s := Pair(a', b, multiset{});
    var r1 := Approach(a', 0, k);
    var r2 := r1 + [Put(0), Lose(Msg(1, newer))];
    Step0(a, b, multiset{}, Edit(0, map[k := newer]), a', multiset{});
    RunThen(Pair(a, b, multiset{}), Edit(0, map[k := newer]), r2 + Tail(0));
    ApproachReaches(s, 0, k);
    PairWith(a', b, Poised(a', k), b);
    PutAndLose(a', b, k, newer);
    FinishFirst(a', b, k, newer);
    RunConcat(s, r1, [Put(0), Lose(Msg(1, newer))]);
    RunConcat(s, r2, Tail(0));
  }

  function RenewalRun(k: string, older: Record, newer: Record): seq<Step> {
    FirstIssue(k, older) + LostRenewal(Finished(Fresh(1, map[k := older]), k, older), k, newer)
  }

  /** The loss is the only thing out of the ordinary: one file change, to a newer record,
      and one delivery, to a node that publishes nothing. */
  lemma RenewalRunOtherwiseCalm(k: string, older: Record, newer: Record)
    ensures var steps := RenewalRun(k, older, newer);
            forall i :: 0 <= i < |steps| ==>
              && (steps[i].Edit? ==> steps[i] == Edit(0, map[k := newer]))
              && (steps[i].Deliver? ==> steps[i] == Deliver(Msg(1, older)))
              && (steps[i].Lose? ==> steps[i] == Lose(Msg(1, newer)))
              && (steps[i].Put? ==> steps[i] == Put(0))
  {
    hide Approach;
    var a := Fresh(1, map[k := older]);
    ApproachLabels(a, 0, k);
    ApproachLabels(Renewed(Finished(a, k, older), k, newer), 0, k);
  }

  lemma ApproachLabels(ns: NodeState, n: Node, k: string)
    ensures var steps := Approach(ns, n, k);
            forall i :: 0 <= i < |steps| ==> !steps[i].Edit? && !steps[i].Deliver? && !steps[i].Lose? && !steps[i].Put?
  {
    AsksLabels(n, |ns.peers| + 1);
  }

  lemma {:induction false} AsksLabels(n: Node, count: nat)
    ensures forall i :: 0 <= i < |Asks(n, count)| ==> Asks(n, count)[i].Ask?
  {
    if count > 0 {
      AsksLabels(n, count - 1);
    }
  }

  /** The harmful half: a renewal whose fan-out is lost. Every node has ticked and nothing
      is in flight, yet the second node, whose store holds the record before, keeps and
      serves that one for good. */
  lemma LostRenewalIsPermanent(k: string, older: Record, newer: Record)
    requires older.key == k && newer.key == k && Newer(newer.version, older.version)
    ensures var s0 := Pair(Fresh(1, map[k := older]), Fresh(0, map[]), multiset{});
            var s := Run(s0, RenewalRun(k, older, newer));
            && Init(s0) && Meshed(s0) && Settled(s) && AtRest(s) && !Converged(s)
            && NeverGets(s, 1, k, newer.version) && ServesForever(s, 0, k, newer) && ServesForever(s, 1, k, older)
  {
    hide Run, FirstIssue, LostRenewal;
    var a, b := Fresh(1, map[k := older]), Fresh(0, map[]);
    PairInit(a, b, map[k := older], map[]);
    FirstIssueEnds(a, b, k, older);
    var a', b' := Finished(a, k, older), Received(b, k, older);
    LostRenewalEnds(a', b', k, older, newer);
    RunConcat(Pair(a, b, multiset{}), FirstIssue(k, older), LostRenewal(a', k, newer));
    var c := Finished(Renewed(a', k, newer), k, newer);
    RenewalEnd(c, b', k, older, newer);
    PairMisses(c, b', 1, k, newer.version);
  }

  lemma RenewalEnd(a: NodeState, b: NodeState, k: string, older: Record, newer: Record)
    requires Newer(newer.version, older.version)
    requires a.local == a.store == a.applied == map[k := newer] && b.store == b.applied == map[k := older] && b.local == map[]
    requires a.phase.Idle? && b.phase.Idle? && a.synced && b.synced
    ensures var s := Pair(a, b, multiset{});
            && Settled(s) && AtRest(s) && !Converged(s)
            && ServesForever(s, 0, k, newer) && ServesForever(s, 1, k, older)
  {
    hide Run;
    var s := Pair(a, b, multiset{});
    AtMostReflexive(newer.version);
    PairRests(a, b);
    PairServes(a, b, k, newer, older);
    assert 0 in s.nodes && s.nodes[0] == a && 1 in s.nodes && s.nodes[1] == b;
    assert !GreatestLocal(s, k, s.nodes[1].store[k].version);
  }
}
