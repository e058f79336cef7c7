/** What the lock is for: two nodes that go on after a failed lock attempt can make the
    cluster copy older, and a round of ticks then ends without the newest copy. */
module LanUnlocked {
  import opened Versions
  import opened Lan
  import opened LanRounds

  function With(s: State, n: Node, ns: NodeState): State {
    s.(nodes := s.nodes[n := ns])
  }

  lemma StepWith(s: State, n: Node, a: NodeState, step: Step, b: NodeState)
    requires n in s.nodes && !step.Expire? && step.n == n && !step.Put? && (step.Lock? ==> !step.ok)
    requires step.Release? && a.phase.Releasing? ==> !a.phase.held
    requires Moved(With(s, n, a), a, step) == b
    ensures Next(With(s, n, a), step) == With(s, n, b)
  {
    assert s.nodes[n := a][n := b] == s.nodes[n := b];
  }

  lemma RunSnoc(s: State, xs: seq<Step>, x: Step)
    ensures Run(s, xs + [x]) == Next(Run(s, xs), x)
  {
    assert (xs + [x])[..|xs|] == xs;
  }

  /** A tick up to the Put, with the lock attempt failing. */
  function Approach(n: Node, k: string): seq<Step> {
    [BeginTick(n, {})] + [Visit(n, k, true)] + [Check(n)] + [Lock(n, false)] + [Recheck(n, true)]
  }

  function Poised(ns: NodeState, k: string): NodeState {
    ns.(tick := Tick(ns.local, ns.local.Keys), phase := Committing(k, None, false))
  }

  lemma ApproachReaches(s0: State, before: seq<Step>, s: State, n: Node, k: string)
    requires Run(s0, before) == s && n in s.nodes && s.nodes[n].phase.Idle? && k in s.nodes[n].local && k !in s.cluster
    ensures Run(s0, before + Approach(n, k)) == With(s, n, Poised(s.nodes[n], k))
  {
    hide Run, Next;
    var ns := s.nodes[n];
    var p := Poised(ns, k);
    assert With(s, n, ns) == s;
    assert ns.local.Keys + {} == ns.local.Keys;
    var r1 := before + [BeginTick(n, {})];
    var r2 := r1 + [Visit(n, k, true)];
    var r3 := r2 + [Check(n)];
    var r4 := r3 + [Lock(n, false)];
    RunSnoc(s0, before, BeginTick(n, {}));
    StepWith(s, n, ns, BeginTick(n, {}), p.(phase := Visiting));
    RunSnoc(s0, r1, Visit(n, k, true));
    StepWith(s, n, p.(phase := Visiting), Visit(n, k, true), p.(phase := Deciding(k, None)));
    RunSnoc(s0, r2, Check(n));
    StepWith(s, n, p.(phase := Deciding(k, None)), Check(n), p.(phase := Contending(k, None)));
    RunSnoc(s0, r3, Lock(n, false));
    StepWith(s, n, p.(phase := Contending(k, None)), Lock(n, false), p.(phase := Locked(k, None, false)));
    RunSnoc(s0, r4, Recheck(n, true));
    StepWith(s, n, p.(phase := Locked(k, None, false)), Recheck(n, true), p);
    assert before + Approach(n, k) == r4 + [Recheck(n, true)];
  }

  function Pair(older: Record, newer: Record): State {
    State(map[0 := NodeState(map[older.key := older], Tick(map[], {}), Idle, map[]),
              1 := NodeState(map[newer.key := newer], Tick(map[], {}), Idle, map[])],
          map[], map[])
  }

  lemma PutWrites(s: State, n: Node, k: string, r: Record)
    requires n in s.nodes && k in s.nodes[n].tick.locals && s.nodes[n].tick.locals[k] == r
    requires s.nodes[n].phase.Committing? && s.nodes[n].phase.key == k
    ensures Next(s, Put(n, true)).cluster == s.cluster[k := r]
    ensures var ns := s.nodes[n]; Next(s, Put(n, true)).nodes[n] == ns.(phase := Releasing(k, ns.phase.seen, ns.phase.held))
    ensures Next(s, Put(n, true)).nodes.Keys == s.nodes.Keys
    ensures forall m :: m in s.nodes && m != n ==> Next(s, Put(n, true)).nodes[m] == s.nodes[m]
  {
  }

  function BothPoised(k: string): seq<Step> {
    Approach(0, k) + Approach(1, k)
  }

  lemma BothReach(k: string, older: Record, newer: Record)
    requires older.key == k && newer.key == k
    ensures var s := Run(Pair(older, newer), BothPoised(k));
            s.cluster == map[] && s.nodes.Keys == {0, 1}
            && s.nodes[0] == Poised(Pair(older, newer).nodes[0], k) && s.nodes[1] == Poised(Pair(older, newer).nodes[1], k)
  {
    var s0 := Pair(older, newer);
    ApproachReaches(s0, [], s0, 0, k);
    assert [] + Approach(0, k) == Approach(0, k);
    var s1 := With(s0, 0, Poised(s0.nodes[0], k));
    ApproachReaches(s0, Approach(0, k), s1, 1, k);
  }

  /** Nothing but the lock attempts goes wrong. */
  lemma OtherwiseOrderly(k: string)
    ensures var steps := BothPoised(k) + [Put(1, true)] + [Put(0, true)];
            forall i :: 0 <= i < |steps| ==> steps[i].Lock? || SmoothStep(steps[i])
  {
  }

  /** Two nodes with different versions of any key, neither of which gets the lock: the
      newer record is published and then overwritten by the older one. */
  lemma ClusterFallsWithoutLock(k: string, older: Record, newer: Record)
    requires older.key == k && newer.key == k && Newer(newer.version, older.version)
    ensures var s0 := Pair(older, newer);
            var steps := BothPoised(k) + [Put(1, true)];
            && Init(s0) && Lookup(Run(s0, steps).cluster, k) == Some(newer)
            && Lookup(Run(s0, steps + [Put(0, true)]).cluster, k) == Some(older)
  {
    var s0 := Pair(older, newer);
    BothReach(k, older, newer);
    var s := Run(s0, BothPoised(k));
    RunSnoc(s0, BothPoised(k), Put(1, true));
    PutWrites(s, 1, k, newer);
    var t := Next(s, Put(1, true));
    RunSnoc(s0, BothPoised(k) + [Put(1, true)], Put(0, true));
    PutWrites(t, 0, k, older);
  }

  /** The rest of the tick after the Put. */
  function Tail(n: Node): seq<Step> {
    [Release(n)] + [Apply(n, true)] + [EndTick(n)]
  }

  predicate Released(ns: NodeState, k: string) {
    ns.phase == Releasing(k, None, false) && ns.tick.todo == {k}
  }

  lemma TailEnds(s0: State, before: seq<Step>, s: State, n: Node, k: string)
    requires Run(s0, before) == s && n in s.nodes && Released(s.nodes[n], k)
    ensures var t := Run(s0, before + Tail(n));
            && t.cluster == s.cluster && t.nodes.Keys == s.nodes.Keys && t.nodes[n].phase.Idle?
            && forall m :: m in s.nodes && m != n ==> t.nodes[m] == s.nodes[m]
  {
    hide Run, Next;
    var a := s.nodes[n];
    assert With(s, n, a) == s;
    var b := a.(phase := Applying(k, None));
    var c := Applied(b, k, None, true);
    var r1 := before + [Release(n)];
    var r2 := r1 + [Apply(n, true)];
    RunSnoc(s0, before, Release(n));
    StepWith(s, n, a, Release(n), b);
    RunSnoc(s0, r1, Apply(n, true));
    StepWith(s, n, b, Apply(n, true), c);
    RunSnoc(s0, r2, EndTick(n));
    StepWith(s, n, c, EndTick(n), c.(phase := Idle));
    assert before + Tail(n) == r2 + [EndTick(n)];
  }

  /** Both nodes tick, and the newer record is overwritten on the way. */
  function UnlockedRound(k: string): seq<Step> {
    BothPoised(k) + [Put(1, true)] + [Put(0, true)] + Tail(0) + Tail(1)
  }

  lemma BothPut(k: string, older: Record, newer: Record)
    requires older.key == k && newer.key == k
    ensures var s := Run(Pair(older, newer), BothPoised(k) + [Put(1, true)] + [Put(0, true)]);
            && s.nodes.Keys == {0, 1} && Lookup(s.cluster, k) == Some(older)
            && Released(s.nodes[0], k) && Released(s.nodes[1], k)
  {
    hide Run, Next, BothPoised;
    var s0 := Pair(older, newer);
    BothReach(k, older, newer);
    var s := Run(s0, BothPoised(k));
    assert s0.nodes[0].local.Keys == {k} && s0.nodes[1].local.Keys == {k};
    RunSnoc(s0, BothPoised(k), Put(1, true));
    PutWrites(s, 1, k, newer);
    RunSnoc(s0, BothPoised(k) + [Put(1, true)], Put(0, true));
    PutWrites(Next(s, Put(1, true)), 0, k, older);
  }

  lemma UnlockedRoundEnds(k: string, older: Record, newer: Record)
    requires older.key == k && newer.key == k
    ensures var s := Run(Pair(older, newer), UnlockedRound(k));
            Resting(s) && s.nodes.Keys == {0, 1} && Lookup(s.cluster, k) == Some(older)
  {
    hide Run, Next, BothPoised, Tail, Pair;
    var s0 := Pair(older, newer);
    BothPut(k, older, newer);
    var both := BothPoised(k) + [Put(1, true)] + [Put(0, true)];
    TailEnds(s0, both, Run(s0, both), 0, k);
    TailEnds(s0, both + Tail(0), Run(s0, both + Tail(0)), 1, k);
  }

  lemma FirstBegins(k: string, older: Record, newer: Record)
    requires older.key == k && newer.key == k
    ensures HasBegun(Pair(older, newer), UnlockedRound(k), 0) && HasBegun(Pair(older, newer), UnlockedRound(k), 1)
  {
    var s0, steps := Pair(older, newer), UnlockedRound(k);
    assert steps[0] == BeginTick(0, {}) && Begins(Run(s0, steps[..0]), steps[0], 0);
    assert [] + Approach(0, k) == Approach(0, k) && steps[..5] == Approach(0, k);
    ApproachReaches(s0, [], s0, 0, k);
    assert steps[5] == BeginTick(1, {}) && Begins(Run(s0, steps[..5]), steps[5], 1);
  }

  /** One round without the lock is not enough: every node has finished a tick, nothing
      but the lock attempts has failed, and the cluster does not hold the newest copy. */
  lemma OneUnlockedRoundFallsShort(k: string, older: Record, newer: Record)
    requires older.key == k && newer.key == k && Newer(newer.version, older.version)
    ensures var s, steps := Pair(older, newer), UnlockedRound(k);
            && Resting(s) && Plain(steps) && EveryoneTicks(s, steps) && Resting(Run(s, steps))
            && !HoldsGreatest(s, Run(s, steps), k)
  {
    hide Run, UnlockedRound, HasBegun;
    var s, steps := Pair(older, newer), UnlockedRound(k);
    UnlockedRoundEnds(k, older, newer);
    FirstBegins(k, older, newer);
    UnlockedRoundPlain(k);
    assert steps[..|steps|] == steps;
    forall n | n in s.nodes ensures FinishesBy(s, steps, n, |steps|) {
    }
    assert s.nodes[1].local[k] == newer && FromSomewhere(s, k, newer);
  }

  lemma UnlockedRoundPlain(k: string)
    ensures Plain(UnlockedRound(k))
  {
  }
}
