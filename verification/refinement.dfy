/** The step models and the sequential code agree: the steps of one node, run without
    interference, compute what the methods compute. */
module Refinement {
  import opened Versions
  import Engine
  import Lan
  import Wan
  import WanStore
  import WanFixedPoints

  /** The LAN state with node n and the shared maps replaced. */
  function At(s: Lan.State, n: Lan.Node, ns: Lan.NodeState, cluster: map<string, Record>, locks: map<string, Lan.Node>): Lan.State {
    Lan.State(s.nodes[n := ns], cluster, locks)
  }

  /** All labels of one key's visit. Those of a branch not taken are not enabled. */
  function VisitLabels(n: Lan.Node, key: string, getOk: bool, lockOk: bool, regetOk: bool, putOk: bool, applyOk: bool): seq<Lan.Step> {
    [Lan.Visit(n, key, getOk)] + [Lan.Check(n)] + [Lan.Lock(n, lockOk)] + [Lan.Recheck(n, regetOk)] + [Lan.Put(n, putOk)]
    + [Lan.Release(n)] + [Lan.Apply(n, applyOk)]
  }

  /** The labels between the first check and the apply. */
  function Published(t: Lan.State, n: Lan.Node, lockOk: bool, regetOk: bool, putOk: bool): Lan.State {
    Lan.Next(Lan.Next(Lan.Next(Lan.Next(t, Lan.Lock(n, lockOk)), Lan.Recheck(n, regetOk)), Lan.Put(n, putOk)), Lan.Release(n))
  }

  lemma LanSnoc(s: Lan.State, xs: seq<Lan.Step>, x: Lan.Step)
    ensures Lan.Run(s, xs + [x]) == Lan.Next(Lan.Run(s, xs), x)
  {
    assert (xs + [x])[..|xs|] == xs;
  }

  lemma LanStep(s: Lan.State, n: Lan.Node, ns: Lan.NodeState, cluster: map<string, Record>, locks: map<string, Lan.Node>, step: Lan.Step, ns': Lan.NodeState)
    requires n in s.nodes && !step.Expire? && step.n == n
    requires Lan.Moved(At(s, n, ns, cluster, locks), ns, step) == ns'
    ensures var t := At(s, n, ns, cluster, locks);
            Lan.Next(t, step) == At(s, n, ns', Lan.ClusterAfter(t, step), Lan.LocksAfter(t, step))
  {
    assert s.nodes[n := ns][n := ns'] == s.nodes[n := ns'];
  }

  /** A publish decision that ends early changes nothing on the way to the apply. */
  lemma LanPassive(s: Lan.State, n: Lan.Node, ns: Lan.NodeState, cluster: map<string, Record>, locks: map<string, Lan.Node>, key: string, seen: Option<Record>, lockOk: bool, regetOk: bool, putOk: bool)
    requires n in s.nodes && ns.phase == Lan.Applying(key, seen)
    ensures var t := At(s, n, ns, cluster, locks); Published(t, n, lockOk, regetOk, putOk) == t
  {
    LanStep(s, n, ns, cluster, locks, Lan.Lock(n, lockOk), ns);
    LanStep(s, n, ns, cluster, locks, Lan.Recheck(n, regetOk), ns);
    LanStep(s, n, ns, cluster, locks, Lan.Put(n, putOk), ns);
    LanStep(s, n, ns, cluster, locks, Lan.Release(n), ns);
  }

  /** The locks while the node publishes: its own among them if the attempt succeeded. */
  function LocksWith(locks: map<string, Lan.Node>, key: string, n: Lan.Node, held: bool): map<string, Lan.Node> {
    if held then locks[key := n] else locks
  }

  lemma LanLock(s: Lan.State, n: Lan.Node, ns: Lan.NodeState, cluster: map<string, Record>, locks: map<string, Lan.Node>, key: string, seen: Option<Record>, held: bool)
    requires n in s.nodes && ns.phase == Lan.Contending(key, seen) && (held ==> key !in locks)
    ensures Lan.Next(At(s, n, ns, cluster, locks), Lan.Lock(n, held))
            == At(s, n, ns.(phase := Lan.Locked(key, seen, held)), cluster, LocksWith(locks, key, n, held))
  {
    LanStep(s, n, ns, cluster, locks, Lan.Lock(n, held), ns.(phase := Lan.Locked(key, seen, held)));
  }

  lemma LanRecheck(s: Lan.State, n: Lan.Node, ns: Lan.NodeState, cluster: map<string, Record>, locks: map<string, Lan.Node>, key: string, seen: Option<Record>, held: bool, regetOk: bool)
    requires n in s.nodes && ns.phase == Lan.Locked(key, seen, held) && key in ns.tick.locals
    ensures var kept := regetOk && key in cluster && AtMost(ns.tick.locals[key].version, cluster[key].version);
            Lan.Next(At(s, n, ns, cluster, locks), Lan.Recheck(n, regetOk))
            == At(s, n, ns.(phase := if kept then Lan.Releasing(key, seen, held) else Lan.Committing(key, seen, held)), cluster, locks)
  {
    var kept := regetOk && key in cluster && AtMost(ns.tick.locals[key].version, cluster[key].version);
    LanStep(s, n, ns, cluster, locks, Lan.Recheck(n, regetOk),
            ns.(phase := if kept then Lan.Releasing(key, seen, held) else Lan.Committing(key, seen, held)));
  }

  lemma LanPut(s: Lan.State, n: Lan.Node, ns: Lan.NodeState, cluster: map<string, Record>, locks: map<string, Lan.Node>, key: string, seen: Option<Record>, held: bool, putOk: bool)
    requires n in s.nodes && key in ns.tick.locals && (ns.phase == Lan.Committing(key, seen, held) || ns.phase == Lan.Releasing(key, seen, held))
    ensures Lan.Next(At(s, n, ns, cluster, locks), Lan.Put(n, putOk))
            == At(s, n, ns.(phase := Lan.Releasing(key, seen, held)),
                  if ns.phase.Committing? && putOk then cluster[key := ns.tick.locals[key]] else cluster, locks)
  {
    LanStep(s, n, ns, cluster, locks, Lan.Put(n, putOk), ns.(phase := Lan.Releasing(key, seen, held)));
  }

  lemma LanRelease(s: Lan.State, n: Lan.Node, ns: Lan.NodeState, cluster: map<string, Record>, locks: map<string, Lan.Node>, key: string, seen: Option<Record>, held: bool)
    requires n in s.nodes && ns.phase == Lan.Releasing(key, seen, held) && (held ==> key !in locks)
    ensures Lan.Next(At(s, n, ns, cluster, LocksWith(locks, key, n, held)), Lan.Release(n))
            == At(s, n, ns.(phase := Lan.Applying(key, seen)), cluster, locks)
  {
    LanStep(s, n, ns, cluster, LocksWith(locks, key, n, held), Lan.Release(n), ns.(phase := Lan.Applying(key, seen)));
    if held {
      assert locks[key := n] - {key} == locks;
    }
  }

  /** From the lock attempt on: re-check, put or not, release. */
  lemma LanActive(s: Lan.State, n: Lan.Node, ns: Lan.NodeState, cluster: map<string, Record>, locks: map<string, Lan.Node>, key: string, seen: Option<Record>, held: bool, regetOk: bool, putOk: bool)
    requires n in s.nodes && ns.phase == Lan.Contending(key, seen) && (held ==> key !in locks) && key in ns.tick.locals
    ensures var t := At(s, n, ns, cluster, locks);
            var r := ns.tick.locals[key];
            var kept := regetOk && key in cluster && AtMost(r.version, cluster[key].version);
            Published(t, n, held, regetOk, putOk)
            == At(s, n, ns.(phase := Lan.Applying(key, seen)), if kept || !putOk then cluster else cluster[key := r], locks)
  {
    hide Lan.Next;
    var r := ns.tick.locals[key];
    var kept := regetOk && key in cluster && AtMost(r.version, cluster[key].version);
    var now := LocksWith(locks, key, n, held);
    var a := ns.(phase := Lan.Locked(key, seen, held));
    var b := ns.(phase := if kept then Lan.Releasing(key, seen, held) else Lan.Committing(key, seen, held));
    var c := ns.(phase := Lan.Releasing(key, seen, held));
    LanLock(s, n, ns, cluster, locks, key, seen, held);
    LanRecheck(s, n, a, cluster, now, key, seen, held, regetOk);
    LanPut(s, n, b, cluster, now, key, seen, held, putOk);
    LanRelease(s, n, c, if kept || !putOk then cluster else cluster[key := r], locks, key, seen, held);
  }

  lemma LanSeven(s: Lan.State, a: Lan.Step, b: Lan.Step, c: Lan.Step, d: Lan.Step, e: Lan.Step, f: Lan.Step, g: Lan.Step)
    ensures Lan.Run(s, [a] + [b] + [c] + [d] + [e] + [f] + [g])
            == Lan.Next(Lan.Next(Lan.Next(Lan.Next(Lan.Next(Lan.Next(Lan.Next(s, a), b), c), d), e), f), g)
  {
    assert Lan.Run(s, []) == s && [] + [a] == [a];
    LanSnoc(s, [], a);
    LanSnoc(s, [a], b);
    LanSnoc(s, [a] + [b], c);
    LanSnoc(s, [a] + [b] + [c], d);
    LanSnoc(s, [a] + [b] + [c] + [d], e);
    LanSnoc(s, [a] + [b] + [c] + [d] + [e], f);
    LanSnoc(s, [a] + [b] + [c] + [d] + [e] + [f], g);
  }

  function EnvOf(key: string, getOk: bool, regetOk: bool, putOk: bool): Engine.Env {
    Engine.Env(if getOk then {} else {key}, if regetOk then {} else {key}, if putOk then {} else {key}, map[])
  }

  /** One key of a tick, uninterrupted, whatever fails in it: the steps publish what
      maybePublish publishes, apply the record that tickProvider picks unless the apply
      fails, and leave the locks as they were. A lock that is taken cannot be obtained. */
  lemma LanVisitRefines(s: Lan.State, n: Lan.Node, key: string, getOk: bool, lockOk: bool, regetOk: bool, putOk: bool, applyOk: bool)
    requires n in s.nodes && s.nodes[n].phase.Visiting? && key in s.nodes[n].tick.todo && (lockOk ==> key !in s.locks)
    requires Keyed(s.nodes[n].tick.locals)
    ensures var ns, env := s.nodes[n], EnvOf(key, getOk, regetOk, putOk);
            var best := Engine.Best(ns.tick.locals, s.cluster, env, key);
            Lan.Run(s, VisitLabels(n, key, getOk, lockOk, regetOk, putOk, applyOk))
            == At(s, n, ns.(applied := if applyOk && best.Some? then ns.applied[key := best.value] else ns.applied,
                            tick := ns.tick.(todo := ns.tick.todo - {key})),
                  Engine.Publish(s.cluster, key, Lookup(ns.tick.locals, key), Engine.Seen(s.cluster, env, key), env), s.locks)
  {
    hide Lan.Next, Lan.Run;
    var ns, env := s.nodes[n], EnvOf(key, getOk, regetOk, putOk);
    var seen := Engine.Seen(s.cluster, env, key);
    LanSeven(s, Lan.Visit(n, key, getOk), Lan.Check(n), Lan.Lock(n, lockOk), Lan.Recheck(n, regetOk), Lan.Put(n, putOk), Lan.Release(n), Lan.Apply(n, applyOk));
    var passive := LanDecides(s, n, key, seen, getOk);
    var b := ns.(phase := if passive then Lan.Applying(key, seen) else Lan.Contending(key, seen));
    if passive {
      LanPassive(s, n, b, s.cluster, s.locks, key, seen, lockOk, regetOk, putOk);
    } else {
      LanActive(s, n, b, s.cluster, s.locks, key, seen, lockOk, regetOk, putOk);
    }
    LanApplies(s, n, ns, Engine.Publish(s.cluster, key, Lookup(ns.tick.locals, key), seen, env), key, seen, applyOk);
  }

  lemma LanDecides(s: Lan.State, n: Lan.Node, key: string, seen: Option<Record>, getOk: bool) returns (passive: bool)
    requires n in s.nodes && s.nodes[n].phase.Visiting? && key in s.nodes[n].tick.todo
    requires seen == if getOk then Lookup(s.cluster, key) else None
    ensures var ns := s.nodes[n];
            && passive == (key !in ns.tick.locals || (seen.Some? && AtMost(ns.tick.locals[key].version, seen.value.version)))
            && Lan.Next(Lan.Next(s, Lan.Visit(n, key, getOk)), Lan.Check(n))
               == At(s, n, ns.(phase := if passive then Lan.Applying(key, seen) else Lan.Contending(key, seen)), s.cluster, s.locks)
  {
    hide Lan.Next;
    var ns := s.nodes[n];
    assert At(s, n, ns, s.cluster, s.locks) == s;
    var a := ns.(phase := Lan.Deciding(key, seen));
    LanStep(s, n, ns, s.cluster, s.locks, Lan.Visit(n, key, getOk), a);
    passive := key !in ns.tick.locals || (seen.Some? && AtMost(ns.tick.locals[key].version, seen.value.version));
    var b := ns.(phase := if passive then Lan.Applying(key, seen) else Lan.Contending(key, seen));
    LanStep(s, n, a, s.cluster, s.locks, Lan.Check(n), b);
  }

  lemma LanApplies(s: Lan.State, n: Lan.Node, ns: Lan.NodeState, cluster: map<string, Record>, key: string, seen: Option<Record>, ok: bool)
    requires n in s.nodes && ns.phase.Visiting?
    ensures var best := PickNewer(Lookup(ns.tick.locals, key), seen);
            Lan.Next(At(s, n, ns.(phase := Lan.Applying(key, seen)), cluster, s.locks), Lan.Apply(n, ok))
            == At(s, n, ns.(applied := if ok && best.Some? then ns.applied[key := best.value] else ns.applied,
                            tick := ns.tick.(todo := ns.tick.todo - {key})), cluster, s.locks)
  {
    var best := PickNewer(Lookup(ns.tick.locals, key), seen);
    var p := ns.(phase := Lan.Applying(key, seen));
    var q := ns.(applied := if ok && best.Some? then ns.applied[key := best.value] else ns.applied, tick := ns.tick.(todo := ns.tick.todo - {key}));
    LanStep(s, n, p, cluster, s.locks, Lan.Apply(n, ok), q);
  }

  /** The stores of a WAN node's peers, in order; a peer that is not a node has nothing. */
  function PeerStores(s: Wan.State, ns: Wan.NodeState): (p: seq<map<string, Record>>)
    ensures |p| == |ns.peers|
  {
    seq(|ns.peers|, i requires 0 <= i < |ns.peers| => if ns.peers[i] in s.nodes then s.nodes[ns.peers[i]].store else map[])
  }

  /** One request per peer, then the end of the loop. */
  function AskLabels(n: Wan.Node, up: seq<bool>): seq<Wan.Step> {
    if up == [] then [Wan.Ask(n, true)] else [Wan.Ask(n, up[0])] + AskLabels(n, up[1..])
  }

  lemma {:induction false} AskIgnored(s: Wan.State, n: Wan.Node, up: seq<bool>)
    requires n in s.nodes && !s.nodes[n].phase.Reading? && !s.nodes[n].phase.Rereading?
    ensures Wan.Run(s, AskLabels(n, up)) == s
  {
    var first := if up == [] then Wan.Ask(n, true) else Wan.Ask(n, up[0]);
    assert Wan.Next(s, first) == s by { assert s.nodes[n := s.nodes[n]] == s.nodes; }
    if up == [] {
      WanFixedPoints.RunOne(s, first);
    } else {
      WanFixedPoints.RunThen(s, first, AskLabels(n, up[1..]));
      AskIgnored(s, n, up[1..]);
    }
  }

  /** The peer loop of Get, from peers[asked] on, is the search of the specification. */
  lemma {:induction false} AsksRefine(s: Wan.State, n: Wan.Node, a: Wan.NodeState, key: string, asked: nat, up: seq<bool>)
    requires n in s.nodes && s.nodes[n].peers == a.peers && s.nodes[n].store == a.store && key !in a.store
    requires a.phase == Wan.Reading(key, asked) && asked <= |a.peers| && |up| == |a.peers| - asked
    ensures Wan.Run(WanFixedPoints.With(s, n, a), AskLabels(n, up))
            == WanFixedPoints.With(s, n, a.(phase := Wan.Deciding(key, WanStore.Found(a.store, PeerStores(s, a)[asked..], up, key))))
    decreases |up|
  {
    var t := WanFixedPoints.With(s, n, a);
    if up == [] {
      var b := a.(phase := Wan.Deciding(key, None));
      WanFixedPoints.RunOne(t, Wan.Ask(n, true));
      WanFixedPoints.StepWith(s, n, a, Wan.Ask(n, true), b);
      assert PeerStores(s, a)[asked..] == [];
    } else {
      WanFixedPoints.RunThen(t, Wan.Ask(n, up[0]), AskLabels(n, up[1..]));
      AskOne(s, n, a, key, asked, up[0]);
      assert PeerStores(s, a)[asked..][1..] == PeerStores(s, a)[asked + 1..];
      var answer := if up[0] then Lookup(PeerStores(s, a)[asked], key) else None;
      if answer.Some? {
        AskIgnored(WanFixedPoints.With(s, n, a.(phase := Wan.Deciding(key, answer))), n, up[1..]);
      } else {
        AsksRefine(s, n, a.(phase := Wan.Reading(key, asked + 1)), key, asked + 1, up[1..]);
      }
    }
  }

  lemma AskOne(s: Wan.State, n: Wan.Node, a: Wan.NodeState, key: string, asked: nat, up: bool)
    requires n in s.nodes && s.nodes[n].peers == a.peers && s.nodes[n].store == a.store && key !in a.store
    requires a.phase == Wan.Reading(key, asked) && asked < |a.peers|
    ensures var answer := if up then Lookup(PeerStores(s, a)[asked], key) else None;
            Wan.Next(WanFixedPoints.With(s, n, a), Wan.Ask(n, up))
            == WanFixedPoints.With(s, n, a.(phase := if answer.Some? then Wan.Deciding(key, answer) else Wan.Reading(key, asked + 1)))
  {
    var answer := if up then Lookup(PeerStores(s, a)[asked], key) else None;
    var t := WanFixedPoints.With(s, n, a);
    assert Wan.PeerAnswer(t, a, asked, key, up) == answer;
    WanFixedPoints.StepWith(s, n, a, Wan.Ask(n, up), a.(phase := if answer.Some? then Wan.Deciding(key, answer) else Wan.Reading(key, asked + 1)));
  }

  /** A whole Get, uninterrupted: the protocol's steps find what Backend.Get finds, for
      every choice of peers that answer. */
  lemma WanGetRefines(s: Wan.State, n: Wan.Node, key: string, up: seq<bool>)
    requires n in s.nodes && s.nodes[n].phase.Visiting? && key in s.nodes[n].tick.todo && |up| == |s.nodes[n].peers|
    ensures var ns := s.nodes[n];
            Wan.Run(s, [Wan.Visit(n, key)] + AskLabels(n, up))
            == WanFixedPoints.With(s, n, ns.(phase := Wan.Deciding(key, WanStore.Found(ns.store, PeerStores(s, ns), up, key))))
  {
    var ns := s.nodes[n];
    assert WanFixedPoints.With(s, n, ns) == s;
    WanFixedPoints.RunThen(s, Wan.Visit(n, key), AskLabels(n, up));
    var a := ns.(phase := if key in ns.store then Wan.Deciding(key, Some(ns.store[key])) else Wan.Reading(key, 0));
    WanFixedPoints.StepWith(s, n, ns, Wan.Visit(n, key), a);
    if key in ns.store {
      AskIgnored(WanFixedPoints.With(s, n, a), n, up);
    } else {
      AsksRefine(s, n, a, key, 0, up);
      assert PeerStores(s, a)[0..] == PeerStores(s, ns);
    }
  }

  /** The re-check's verdict on a copy found, or not found. */
  function Judged(a: Wan.NodeState, key: string, seen: Option<Record>, cur: Option<Record>): Wan.NodeState
    requires key in a.tick.locals
  {
    a.(phase := if cur.Some? && AtMost(a.tick.locals[key].version, cur.value.version)
       then Wan.Applying(key, seen) else Wan.Committing(key, seen, false))
  }

  lemma JudgedSettles(a: Wan.NodeState, key: string, seen: Option<Record>, cur: Option<Record>)
    requires key in a.tick.locals
    ensures var p := Judged(a, key, seen, cur).phase; !p.Reading? && !p.Rereading?
    ensures forall phase :: Judged(a.(phase := phase), key, seen, cur) == Judged(a, key, seen, cur)
  {
  }

  lemma ReaskOne(s: Wan.State, n: Wan.Node, a: Wan.NodeState, key: string, seen: Option<Record>, asked: nat, up: bool)
    requires n in s.nodes && s.nodes[n].peers == a.peers && s.nodes[n].store == a.store && key !in a.store && key in a.tick.locals
    requires a.phase == Wan.Rereading(key, seen, asked, false) && asked < |a.peers|
    ensures var answer := if up then Lookup(PeerStores(s, a)[asked], key) else None;
            Wan.Next(WanFixedPoints.With(s, n, a), Wan.Ask(n, up))
            == WanFixedPoints.With(s, n, if answer.Some? then Judged(a, key, seen, answer) else a.(phase := Wan.Rereading(key, seen, asked + 1, false)))
  {
    var answer := if up then Lookup(PeerStores(s, a)[asked], key) else None;
    assert Wan.PeerAnswer(WanFixedPoints.With(s, n, a), a, asked, key, up) == answer;
    WanFixedPoints.StepWith(s, n, a, Wan.Ask(n, up),
                            if answer.Some? then Judged(a, key, seen, answer) else a.(phase := Wan.Rereading(key, seen, asked + 1, false)));
  }

  lemma ReaskEnd(s: Wan.State, n: Wan.Node, a: Wan.NodeState, key: string, seen: Option<Record>)
    requires n in s.nodes && key in a.tick.locals && a.phase == Wan.Rereading(key, seen, |a.peers|, false)
    ensures Wan.Next(WanFixedPoints.With(s, n, a), Wan.Ask(n, true)) == WanFixedPoints.With(s, n, Judged(a, key, seen, None))
  {
    WanFixedPoints.StepWith(s, n, a, Wan.Ask(n, true), Judged(a, key, seen, None));
  }

  /** The peer loop of the re-check is the same search. */
  lemma {:induction false} ReasksRefine(s: Wan.State, n: Wan.Node, a: Wan.NodeState, key: string, seen: Option<Record>, asked: nat, up: seq<bool>)
    requires n in s.nodes && s.nodes[n].peers == a.peers && s.nodes[n].store == a.store && key !in a.store && key in a.tick.locals
    requires a.phase == Wan.Rereading(key, seen, asked, false) && asked <= |a.peers| && |up| == |a.peers| - asked
    ensures Wan.Run(WanFixedPoints.With(s, n, a), AskLabels(n, up))
            == WanFixedPoints.With(s, n, Judged(a, key, seen, WanStore.Found(a.store, PeerStores(s, a)[asked..], up, key)))
    decreases |up|
  {
    hide Wan.Run, Wan.Next;
    var t := WanFixedPoints.With(s, n, a);
    if up == [] {
      WanFixedPoints.RunOne(t, Wan.Ask(n, true));
      ReaskEnd(s, n, a, key, seen);
      assert PeerStores(s, a)[asked..] == [];
    } else {
      hide Wan.Moved, Judged;
      WanFixedPoints.RunThen(t, Wan.Ask(n, up[0]), AskLabels(n, up[1..]));
      ReaskOne(s, n, a, key, seen, asked, up[0]);
      assert PeerStores(s, a)[asked..][1..] == PeerStores(s, a)[asked + 1..];
      var answer := if up[0] then Lookup(PeerStores(s, a)[asked], key) else None;
      if answer.Some? {
        JudgedSettles(a, key, seen, answer);
        AskIgnored(WanFixedPoints.With(s, n, Judged(a, key, seen, answer)), n, up[1..]);
      } else {
        var found := WanStore.Found(a.store, PeerStores(s, a)[asked + 1..], up[1..], key);
        JudgedSettles(a, key, seen, found);
        var b := a.(phase := Wan.Rereading(key, seen, asked + 1, false));
        assert PeerStores(s, b) == PeerStores(s, a);
        ReasksRefine(s, n, b, key, seen, asked + 1, up[1..]);
      }
    }
  }

  /** The re-check, uninterrupted, judges the copy that a Get with the same peers finds. */
  lemma RecheckRefines(s: Wan.State, n: Wan.Node, a: Wan.NodeState, key: string, seen: Option<Record>, up: seq<bool>)
    requires n in s.nodes && s.nodes[n].peers == a.peers && s.nodes[n].store == a.store && |up| == |a.peers|
    requires a.phase == Wan.Contending(key, seen) && key in a.tick.locals
    ensures Wan.Run(WanFixedPoints.With(s, n, a), [Wan.Recheck(n)] + AskLabels(n, up))
            == WanFixedPoints.With(s, n, Judged(a, key, seen, WanStore.Found(a.store, PeerStores(s, a), up, key)))
  {
    hide Wan.Run, Wan.Next;
    WanFixedPoints.RunThen(WanFixedPoints.With(s, n, a), Wan.Recheck(n), AskLabels(n, up));
    if key in a.store {
      var b := Judged(a, key, seen, Some(a.store[key]));
      WanFixedPoints.StepWith(s, n, a, Wan.Recheck(n), b);
      AskIgnored(WanFixedPoints.With(s, n, b), n, up);
    } else {
      var b := a.(phase := Wan.Rereading(key, seen, 0, false));
      WanFixedPoints.StepWith(s, n, a, Wan.Recheck(n), b);
      ReasksRefine(s, n, b, key, seen, 0, up);
      assert PeerStores(s, b)[0..] == PeerStores(s, a);
    }
  }

  /** maybePublish over the WAN backend lets a local record pass that is newer than the
      copy seen and newer than the copy found again. */
  predicate Passes(locals: map<string, Record>, key: string, seen: Option<Record>, cur: Option<Record>) {
    && key in locals
    && (seen.Some? ==> Newer(locals[key].version, seen.value.version))
    && (cur.Some? ==> Newer(locals[key].version, cur.value.version))
  }

  function PublishLabels(n: Wan.Node, up: seq<bool>): seq<Wan.Step> {
    [Wan.Check(n)] + (([Wan.Recheck(n)] + AskLabels(n, up)) + [Wan.Put(n)])
  }

  /** The publish steps, uninterrupted: exactly when the record passes, the own store gets
      it whatever it held, and every peer is sent it; otherwise nothing changes. */
  lemma WanPublishRefines(s: Wan.State, n: Wan.Node, key: string, seen: Option<Record>, up: seq<bool>)
    requires n in s.nodes && s.nodes[n].phase == Wan.Deciding(key, seen) && |up| == |s.nodes[n].peers|
    ensures var ns := s.nodes[n];
            var go := Passes(ns.tick.locals, key, seen, WanStore.Found(ns.store, PeerStores(s, ns), up, key));
            var after := ns.(store := if go then ns.store[key := ns.tick.locals[key]] else ns.store, phase := Wan.Applying(key, seen));
            Wan.Run(s, PublishLabels(n, up))
            == Wan.State(s.nodes[n := after], if go then s.net + Wan.FanOut(ns.peers, ns.tick.locals[key]) else s.net)
  {
    hide Wan.Run, Wan.Next;
    var ns := s.nodes[n];
    var cur := WanStore.Found(ns.store, PeerStores(s, ns), up, key);
    assert WanFixedPoints.With(s, n, ns) == s;
    var mid := [Wan.Recheck(n)] + AskLabels(n, up);
    WanFixedPoints.RunThen(s, Wan.Check(n), mid + [Wan.Put(n)]);
    if key !in ns.tick.locals || (seen.Some? && AtMost(ns.tick.locals[key].version, seen.value.version)) {
      var b := ns.(phase := Wan.Applying(key, seen));
      WanFixedPoints.StepWith(s, n, ns, Wan.Check(n), b);
      Skips(s, n, b, up);
    } else {
      var a := ns.(phase := Wan.Contending(key, seen));
      WanFixedPoints.StepWith(s, n, ns, Wan.Check(n), a);
      RecheckRefines(s, n, a, key, seen, up);
      assert PeerStores(s, a) == PeerStores(s, ns);
      WanFixedPoints.RunConcat(WanFixedPoints.With(s, n, a), mid, [Wan.Put(n)]);
      var t := WanFixedPoints.With(s, n, Judged(a, key, seen, cur));
      WanFixedPoints.RunOne(t, Wan.Put(n));
      PutStep(s, n, Judged(a, key, seen, cur));
    }
  }

  /** A node that has settled its key ignores the rest of the publish steps. */
  lemma Skips(s: Wan.State, n: Wan.Node, b: Wan.NodeState, up: seq<bool>)
    requires n in s.nodes && b.phase.Applying?
    ensures var t := WanFixedPoints.With(s, n, b); Wan.Run(t, ([Wan.Recheck(n)] + AskLabels(n, up)) + [Wan.Put(n)]) == t
  {
    hide Wan.Run, Wan.Next;
    var t := WanFixedPoints.With(s, n, b);
    WanFixedPoints.RunConcat(t, [Wan.Recheck(n)] + AskLabels(n, up), [Wan.Put(n)]);
    WanFixedPoints.RunThen(t, Wan.Recheck(n), AskLabels(n, up));
    WanFixedPoints.StepWith(s, n, b, Wan.Recheck(n), b);
    AskIgnored(t, n, up);
    WanFixedPoints.RunOne(t, Wan.Put(n));
    PutStep(s, n, b);
  }

  lemma PutStep(s: Wan.State, n: Wan.Node, b: Wan.NodeState)
    requires n in s.nodes
    ensures Wan.Next(WanFixedPoints.With(s, n, b), Wan.Put(n))
            == Wan.State(s.nodes[n := Wan.DoPut(b)], if Wan.CanPut(b) then s.net + Wan.FanOut(b.peers, Wan.Published(b)) else s.net)
  {
    hide Wan.FanOut, Wan.DoPut, Wan.CanPut;
    assert s.nodes[n := b][n := Wan.DoPut(b)] == s.nodes[n := Wan.DoPut(b)];
  }

  /** One message per peer, in order, as Backend.Put sends them. */
  function Sent(peers: seq<Wan.Node>, r: Record): seq<Wan.Msg> {
    seq(|peers|, i requires 0 <= i < |peers| => Wan.Msg(peers[i], r))
  }

  lemma {:induction false} FanOutIsSent(peers: seq<Wan.Node>, r: Record)
    ensures Wan.FanOut(peers, r) == multiset(Sent(peers, r))
  {
    if peers != [] {
      FanOutIsSent(peers[1..], r);
      assert Sent(peers, r) == [Wan.Msg(peers[0], r)] + Sent(peers[1..], r);
    }
  }

  /** The Put step is Backend.Put: its store, seen through the kind's view, and its
      messages, one to every peer. */
  lemma WanPutRefines(s: Wan.State, n: Wan.Node, store: map<string, Record>, kind: string)
    requires n in s.nodes && Wan.CanPut(s.nodes[n]) && WanStore.NulFree(kind) && WanStore.View(store, kind) == s.nodes[n].store
    requires var r := Wan.Published(s.nodes[n]); r.kind == kind && r.key == s.nodes[n].phase.key
    ensures var ns, t := s.nodes[n], Wan.Next(s, Wan.Put(n));
            && n in t.nodes && t.nodes[n].store == WanStore.View(WanStore.Written(store, Wan.Published(ns)), kind)
            && t.net == s.net + multiset(Sent(ns.peers, Wan.Published(ns)))
  {
    WanStore.WrittenView(store, Wan.Published(s.nodes[n]), kind);
    FanOutIsSent(s.nodes[n].peers, Wan.Published(s.nodes[n]));
  }
}
