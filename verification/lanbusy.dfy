/** Convergence of the shared store without the lock and without a moment at which the
    nodes are all idle: from any state, over ticks that overlap in any way. */
module LanBusy {
  import opened Versions
  import opened Lan
  import opened LanRaces
  import opened LanRounds

  /** Neither the cluster copy of k nor any record about to be put is older than v. */
  ghost predicate Floor(s: State, k: string, v: Version) {
    Holds(s.cluster, k, v) && forall n :: Fresh(s, n, k, v)
  }

  /** What node n is about to put under k, if anything, is not older than v. */
  ghost predicate Fresh(s: State, n: Node, k: string, v: Version) {
    Poised(s, n, k) ==> AtMost(v, s.nodes[n].tick.locals[k].version)
  }

  ghost predicate AllFresh(s: State, k: string, v: Version) {
    forall n :: Fresh(s, n, k, v)
  }

  /** Node n gets to the point of putting k. */
  predicate Readies(s: State, step: Step, n: Node, k: string) {
    && Enabled(s, step) && step.n == n && step.Recheck? && s.nodes[n].phase.Locked? && s.nodes[n].phase.key == k
    && k in s.nodes[n].tick.locals && !(step.ok && Holds(s.cluster, k, s.nodes[n].tick.locals[k].version))
  }

  lemma PoisedOrigin(s: State, step: Step, n: Node, k: string)
    requires Poised(Next(s, step), n, k)
    ensures n in s.nodes && Next(s, step).nodes[n].tick.locals == s.nodes[n].tick.locals
    ensures Poised(s, n, k) || Readies(s, step, n, k)
  {
  }

  /** A Put of k that is not older than v keeps the copy that new. */
  lemma CopyStep(s: State, step: Step, k: string, v: Version)
    requires AllFresh(s, k, v) && Holds(s.cluster, k, v)
    ensures Holds(Next(s, step).cluster, k, v)
  {
    CopyOrigin(s, step, k);
    if PutsAt(s, step, k) {
      assert Poised(s, step.n, k) && Fresh(s, step.n, k, v);
    }
  }

  /** Once it holds, the floor stays. */
  lemma FloorStep(s: State, step: Step, k: string, v: Version)
    requires Floor(s, k, v) && PlainStep(step)
    ensures Floor(Next(s, step), k, v)
  {
    hide Next, Readies;
    CopyStep(s, step, k, v);
    forall n ensures Fresh(Next(s, step), n, k, v) {
      assert Fresh(s, n, k, v);
      if Poised(Next(s, step), n, k) {
        PoisedOrigin(s, step, n, k);
        if Readies(s, step, n, k) {
          ReadiesAbove(s, step, n, k, v);
        }
      }
    }
  }

  lemma ReadiesAbove(s: State, step: Step, n: Node, k: string, v: Version)
    requires Readies(s, step, n, k) && PlainStep(step) && Holds(s.cluster, k, v)
    ensures AtMost(v, s.nodes[n].tick.locals[k].version)
  {
    NewerGivesAtMost(s.nodes[n].tick.locals[k].version, s.cluster[k].version);
    AtMostTransitive(v, s.cluster[k].version, s.nodes[n].tick.locals[k].version);
  }

  /** Every local version of k older than v has the floor under it already. */
  ghost predicate OlderDone(s: State, k: string, v: Version) {
    forall n :: n in s.nodes && k in s.nodes[n].local && Newer(v, s.nodes[n].local[k].version) ==> Floor(s, k, s.nodes[n].local[k].version)
  }

  lemma OlderDoneStep(s: State, step: Step, k: string, v: Version)
    requires OlderDone(s, k, v) && PlainStep(step)
    ensures OlderDone(Next(s, step), k, v)
  {
    hide Next, Floor;
    var t := Next(s, step);
    SameFilesStep(s, s, step);
    forall n | n in t.nodes && k in t.nodes[n].local && Newer(v, t.nodes[n].local[k].version) ensures Floor(t, k, t.nodes[n].local[k].version) {
      FloorStep(s, step, k, s.nodes[n].local[k].version);
    }
  }

  lemma PresentStep(s: State, step: Step)
    requires Present(s) && !step.Edit?
    ensures Present(Next(s, step))
  {
    hide Moved, ClusterAfter, LocksAfter;
    if Enabled(s, step) {
      LocalsMoved(s, step);
    }
  }

  /** Nobody gets ready to put anything older than v any more. */
  lemma FreshStep(s: State, step: Step, n: Node, k: string, v: Version)
    requires Present(s) && OlderDone(s, k, v) && PlainStep(step) && Fresh(s, n, k, v)
    ensures Fresh(Next(s, step), n, k, v)
  {
    hide Next;
    if Poised(Next(s, step), n, k) {
      PoisedOrigin(s, step, n, k);
    }
  }

  lemma {:induction false} BusyRun(s: State, steps: seq<Step>, k: string, v: Version)
    requires Present(s) && OlderDone(s, k, v) && Plain(steps)
    ensures var t := Run(s, steps); SameFiles(s, t) && Present(t) && OlderDone(t, k, v)
  {
    if steps != [] {
      hide Run, Next, Present, OlderDone;
      var front, last := steps[..|steps| - 1], steps[|steps| - 1];
      BusyRun(s, front, k, v);
      RunLast(s, steps);
      SameFilesStep(s, Run(s, front), last);
      PresentStep(Run(s, front), last);
      OlderDoneStep(Run(s, front), last, k, v);
    }
  }

  /** A node that has begun a tick in the run is not about to put anything older than v. */
  lemma {:induction false} FreshRun(s: State, steps: seq<Step>, n: Node, k: string, v: Version)
    requires Present(s) && OlderDone(s, k, v) && Plain(steps)
    ensures Fresh(s, n, k, v) || HasBegun(s, steps, n) ==> Fresh(Run(s, steps), n, k, v)
  {
    if steps != [] && (Fresh(s, n, k, v) || HasBegun(s, steps, n)) {
      hide Run, Next, Present, OlderDone, HasBegun, Fresh, Begins;
      var front, last := steps[..|steps| - 1], steps[|steps| - 1];
      BusyRun(s, front, k, v);
      FreshRun(s, front, n, k, v);
      RunLast(s, steps);
      if HasBegun(s, steps, n) {
        HasBegunSnoc(s, steps, n);
        if Begins(Run(s, front), last, n) {
          IdleFresh(Run(s, front), last, n, k, v);
        }
      }
      FreshStep(Run(s, front), last, n, k, v);
    }
  }

  lemma IdleFresh(s: State, step: Step, n: Node, k: string, v: Version)
    requires Begins(s, step, n)
    ensures Fresh(s, n, k, v)
  {
  }

  /** After one round nobody is about to put anything older than v. */
  lemma RoundFreshens(s: State, steps: seq<Step>, k: string, v: Version)
    requires Present(s) && OlderDone(s, k, v) && Plain(steps) && EveryoneTicks(s, steps)
    ensures AllFresh(Run(s, steps), k, v)
  {
    hide Run, Present, OlderDone, HasBegun;
    var t := Run(s, steps);
    BusyRun(s, steps, k, v);
    forall n ensures Fresh(t, n, k, v) {
      if n in s.nodes {
        var j: nat :| FinishesBy(s, steps, n, j);
        HasBegunMore(s, steps, j, n);
        FreshRun(s, steps, n, k, v);
      }
    }
  }

  lemma FreshLasting(s: State, steps: seq<Step>, k: string, v: Version)
    requires Present(s) && OlderDone(s, k, v) && Plain(steps) && AllFresh(s, k, v)
    ensures Lasting(s, steps, k, AtLeast(v)) && AllFresh(Run(s, steps), k, v)
  {
    hide Run, Next, Present, OlderDone, HasBegun, Fresh;
    forall i | 0 <= i < |steps| && Met(Run(s, steps[..i]).cluster, k, AtLeast(v))
      ensures Met(Next(Run(s, steps[..i]), steps[i]).cluster, k, AtLeast(v))
    {
      forall n ensures Fresh(Run(s, steps[..i]), n, k, v) {
        FreshRun(s, steps[..i], n, k, v);
      }
      CopyStep(Run(s, steps[..i]), steps[i], k, v);
    }
    forall n ensures Fresh(Run(s, steps), n, k, v) {
      FreshRun(s, steps, n, k, v);
    }
  }

  /** After a second round the node's own version has the floor under it. */
  lemma TwoRoundsFloor(s: State, one: seq<Step>, two: seq<Step>, n: Node, k: string)
    requires n in s.nodes && k in s.nodes[n].local && Present(s) && OlderDone(s, k, s.nodes[n].local[k].version)
    requires Plain(one) && EveryoneTicks(s, one) && Plain(two) && EveryoneTicks(Run(s, one), two)
    ensures SameFiles(s, Run(Run(s, one), two)) && Floor(Run(Run(s, one), two), k, s.nodes[n].local[k].version)
  {
    hide Run, Present, OlderDone, EveryoneTicks;
    var v := s.nodes[n].local[k].version;
    var mid := Run(s, one);
    BusyRun(s, one, k, v);
    RoundFreshens(s, one, k, v);
    FreshLasting(mid, two, k, v);
    BusyRun(mid, two, k, v);
    AtMostReflexive(v);
    FinishedMeets(mid, two, n, k, AtLeast(v));
  }

  /** The nodes whose version of k does not have the floor under it. */
  ghost function Ahead(s: State, k: string): set<Node> {
    set n | n in s.nodes && k in s.nodes[n].local && !Floor(s, k, s.nodes[n].local[k].version)
  }

  lemma {:induction false} FloorRun(s: State, steps: seq<Step>, k: string, v: Version)
    requires Floor(s, k, v) && Plain(steps)
    ensures Floor(Run(s, steps), k, v)
  {
    if steps != [] {
      hide Run, Next, Floor;
      FloorRun(s, steps[..|steps| - 1], k, v);
      FloorStep(Run(s, steps[..|steps| - 1]), steps[|steps| - 1], k, v);
      RunLast(s, steps);
    }
  }

  lemma {:induction false} SameFilesRun(s: State, steps: seq<Step>)
    requires Plain(steps)
    ensures SameFiles(s, Run(s, steps))
  {
    if steps != [] {
      hide Run, Next, SameFiles;
      SameFilesRun(s, steps[..|steps| - 1]);
      SameFilesStep(s, Run(s, steps[..|steps| - 1]), steps[|steps| - 1]);
      RunLast(s, steps);
    } else {
      assert SameFiles(s, s);
    }
  }

  lemma AheadShrinks(s: State, steps: seq<Step>, k: string)
    requires Plain(steps)
    ensures Ahead(Run(s, steps), k) <= Ahead(s, k)
  {
    hide Run, Floor;
    var t := Run(s, steps);
    SameFilesRun(s, steps);
    forall n | n in Ahead(t, k) ensures n in Ahead(s, k) {
      if Floor(s, k, s.nodes[n].local[k].version) {
        FloorRun(s, steps, k, s.nodes[n].local[k].version);
      }
    }
  }

  /** One of the nodes has the least version. */
  lemma {:induction false} LeastOf(s: State, ns: set<Node>, k: string) returns (n: Node)
    requires ns != {} && forall m :: m in ns ==> m in s.nodes && k in s.nodes[m].local
    ensures n in ns && forall m :: m in ns ==> AtMost(s.nodes[n].local[k].version, s.nodes[m].local[k].version)
    decreases |ns|
  {
    var x :| x in ns;
    var rest := ns - {x};
    AtMostReflexive(s.nodes[x].local[k].version);
    if rest == {} {
      n := x;
      assert ns == {x};
    } else {
      var m := LeastOf(s, rest, k);
      n := if Newer(s.nodes[x].local[k].version, s.nodes[m].local[k].version) then m else x;
      forall q | q in ns ensures AtMost(s.nodes[n].local[k].version, s.nodes[q].local[k].version) {
        if q != x {
          assert q in rest;
          if n == x {
            AtMostTransitive(s.nodes[x].local[k].version, s.nodes[m].local[k].version, s.nodes[q].local[k].version);
          }
        } else if n == m {
          NewerGivesAtMost(s.nodes[x].local[k].version, s.nodes[m].local[k].version);
        }
      }
    }
  }

  /** Two rounds leave at least one node fewer ahead. */
  lemma TwoRoundsShrink(s: State, one: seq<Step>, two: seq<Step>, k: string)
    requires Present(s) && Plain(one) && EveryoneTicks(s, one) && Plain(two) && EveryoneTicks(Run(s, one), two)
    requires Ahead(s, k) != {}
    ensures |Ahead(Run(Run(s, one), two), k)| < |Ahead(s, k)|
  {
    hide Run, Present, EveryoneTicks, Floor;
    var t := Run(Run(s, one), two);
    AheadShrinks(s, one, k);
    AheadShrinks(Run(s, one), two, k);
    var n := LeastOf(s, Ahead(s, k), k);
    var v := s.nodes[n].local[k].version;
    forall m | m in s.nodes && k in s.nodes[m].local && Newer(v, s.nodes[m].local[k].version) ensures Floor(s, k, s.nodes[m].local[k].version) {
      assert m !in Ahead(s, k);
    }
    TwoRoundsFloor(s, one, two, n, k);
    assert n !in Ahead(t, k);
    SmallerSet(Ahead(t, k), Ahead(s, k), n);
  }

  /** Rounds one after another: in each, every node begins and finishes a tick. */
  ghost predicate BusyRounds(s: State, rounds: seq<seq<Step>>) {
    rounds == [] ||
    (var front, last := rounds[..|rounds| - 1], rounds[|rounds| - 1];
     BusyRounds(s, front) && Plain(last) && EveryoneTicks(RunRounds(s, front), last))
  }

  lemma {:induction false} PresentRounds(s: State, rounds: seq<seq<Step>>, k: string)
    requires Present(s) && BusyRounds(s, rounds)
    ensures var t := RunRounds(s, rounds);
            SameFiles(s, t) && Present(t) && Ahead(t, k) <= Ahead(s, k) && (k in t.cluster ==> FromSomewhere(s, k, t.cluster[k]))
  {
    if rounds != [] {
      hide Run, Present, EveryoneTicks, Ahead, FromSomewhere;
      var front, last := rounds[..|rounds| - 1], rounds[|rounds| - 1];
      PresentRounds(s, front, k);
      var mid := RunRounds(s, front);
      OriginRun(mid, last, k);
      AheadShrinks(mid, last, k);
      if k in Run(mid, last).cluster {
        SourceBack(s, mid, k, Run(mid, last).cluster[k]);
      }
    }
  }

  lemma SourceBack(s: State, t: State, k: string, r: Record)
    requires SameFiles(s, t) && (k in t.cluster ==> FromSomewhere(s, k, t.cluster[k])) && FromSomewhere(t, k, r)
    ensures FromSomewhere(s, k, r)
  {
  }

  lemma {:induction false} AheadAfter(s: State, rounds: seq<seq<Step>>, k: string)
    requires Present(s) && BusyRounds(s, rounds)
    ensures var t := RunRounds(s, rounds); Ahead(t, k) == {} || |Ahead(t, k)| + |rounds| / 2 <= |Ahead(s, k)|
  {
    if |rounds| >= 2 {
      hide Run, Present, EveryoneTicks, Ahead;
      var front := rounds[..|rounds| - 1];
      var mid := front[..|front| - 1];
      PresentRounds(s, mid, k);
      AheadAfter(s, mid, k);
      var m := RunRounds(s, mid);
      if Ahead(m, k) == {} {
        AheadShrinks(m, front[|front| - 1], k);
        AheadShrinks(RunRounds(s, front), rounds[|rounds| - 1], k);
      } else {
        TwoRoundsShrink(m, front[|front| - 1], rounds[|rounds| - 1], k);
      }
    } else {
      PresentRounds(s, rounds, k);
      SubsetSize(Ahead(RunRounds(s, rounds), k), Ahead(s, k));
    }
  }

  lemma AheadBound(s: State, k: string)
    ensures |Ahead(s, k)| <= |s.nodes|
  {
    assert Ahead(s, k) <= s.nodes.Keys;
    SubsetSize(Ahead(s, k), s.nodes.Keys);
  }

  predicate NodePresent(s: State, n: Node) {
    n in s.nodes ==> s.nodes[n].phase.Idle? || s.nodes[n].tick.locals == s.nodes[n].local
  }

  lemma NodePresentStep(s: State, step: Step, n: Node)
    requires !step.Edit? && (NodePresent(s, n) || Begins(s, step, n))
    ensures NodePresent(Next(s, step), n)
  {
    hide Moved, ClusterAfter, LocksAfter;
    if Enabled(s, step) {
      LocalsMoved(s, step);
    }
  }

  /** A node that has begun a tick since the files last changed works on its present files. */
  lemma {:induction false} PresentAfter(s: State, steps: seq<Step>, n: Node)
    requires Plain(steps) && HasBegun(s, steps, n)
    ensures NodePresent(Run(s, steps), n)
  {
    hide Run, Next, NodePresent, Begins, HasBegun;
    if steps == [] {
      NothingBegun(s, n);
    } else {
      var front := steps[..|steps| - 1];
      HasBegunSnoc(s, steps, n);
      if HasBegun(s, front, n) {
        PresentAfter(s, front, n);
      }
      NodePresentStep(Run(s, front), steps[|steps| - 1], n);
      RunLast(s, steps);
    }
  }

  lemma NothingBegun(s: State, n: Node)
    ensures !HasBegun(s, [], n)
  {
  }

  lemma RoundMakesPresent(s: State, steps: seq<Step>)
    requires Plain(steps) && EveryoneTicks(s, steps)
    ensures Present(Run(s, steps))
  {
    hide Run, HasBegun;
    SameFilesRun(s, steps);
    forall n | n in s.nodes ensures NodePresent(Run(s, steps), n) {
      var j: nat :| FinishesBy(s, steps, n, j);
      HasBegunMore(s, steps, j, n);
      PresentAfter(s, steps, n);
    }
  }

  /** Convergence by publishing again, as the engine relies on it: from any state at all,
      with ticks overlapping in any way and whatever locks fail or expire, once files have
      stopped changing and every node has ticked often enough, the cluster copy is at least
      as new as every local one; and it is a local one, or was there after the first round. */
  lemma BusyRoundsConverge(s: State, first: seq<Step>, rounds: seq<seq<Step>>, k: string)
    requires Plain(first) && EveryoneTicks(s, first) && BusyRounds(Run(s, first), rounds) && |rounds| >= 2 * |s.nodes|
    ensures var t := RunRounds(Run(s, first), rounds);
            && SameFiles(s, t)
            && (k in t.cluster ==> FromSomewhere(Run(s, first), k, t.cluster[k]))
            && forall n :: n in s.nodes && k in s.nodes[n].local ==> Floor(t, k, s.nodes[n].local[k].version)
  {
    hide Run, RunRounds, EveryoneTicks, BusyRounds, Floor;
    var u := Run(s, first);
    var t := RunRounds(u, rounds);
    RoundMakesPresent(s, first);
    SameFilesRun(s, first);
    PresentRounds(u, rounds, k);
    AheadAfter(u, rounds, k);
    AheadBound(u, k);
    assert u.nodes.Keys == s.nodes.Keys;
    SameSize(u.nodes, s.nodes);
    assert Ahead(t, k) == {};
    forall n | n in s.nodes && k in s.nodes[n].local ensures Floor(t, k, s.nodes[n].local[k].version) {
      assert n !in Ahead(t, k);
    }
  }

  lemma SameSize(a: map<Node, NodeState>, b: map<Node, NodeState>)
    requires a.Keys == b.Keys
    ensures |a| == |b|
  {
    assert |a| == |a.Keys| && |b| == |b.Keys|;
  }
}
