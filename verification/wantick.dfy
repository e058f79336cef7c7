/** A whole tick over the WAN backend: one node's steps, run without interference, look up,
    publish and apply what the engine does with the backend's Get and Put. */
module WanTick {
  import opened Versions
  import opened Wan
  import opened WanFixedPoints
  import opened Refinement
  import WanStore
  import Engine

  /** What a node applies, in any state of any run: the tick's own record or the copy that its
      first lookup saw, no older than either, the copy on a tie; and nothing only if there is
      neither. No other record it has applied changes. */
  lemma AppliedIsNewest(ns: NodeState, key: string, seen: Option<Record>, k: string)
    requires ns.phase == Applying(key, seen)
    ensures var local, best := Lookup(ns.tick.locals, key), Lookup(DoApply(ns).applied, key);
            && (local.None? && seen.None? ==> best == Lookup(ns.applied, key))
            && (local.Some? || seen.Some? ==>
                && best.Some? && (best == local || best == seen)
                && (local.Some? ==> AtMost(local.value.version, best.value.version))
                && (seen.Some? ==> AtMost(seen.value.version, best.value.version))
                && (local.Some? && seen.Some? && local.value.version == seen.value.version ==> best == seen))
            && (k != key ==> Lookup(DoApply(ns).applied, k) == Lookup(ns.applied, k))
    ensures DoApply(ns).tick == ns.tick.(todo := ns.tick.todo - {key}) && DoApply(ns).phase.Visiting?
    ensures DoApply(ns).store == ns.store && DoApply(ns).local == ns.local
  {
    PickNewerIsMaximum(Lookup(ns.tick.locals, key), seen);
  }

  /** Which peers answer the lookup of each key, and which the second one before publishing. */
  datatype Answers = Answers(first: string -> seq<bool>, again: string -> seq<bool>)

  predicate Fits(peers: seq<Node>, up: Answers, key: string) {
    |up.first(key)| == |peers| && |up.again(key)| == |peers|
  }

  /** What the backend's lookup of a key finds. */
  function Lookups(s: State, ns: NodeState, up: seq<bool>, key: string): Option<Record>
    requires |up| == |ns.peers|
  {
    WanStore.Found(ns.store, PeerStores(s, ns), up, key)
  }

  /** All labels of one key's visit. Those of a branch not taken are not enabled. */
  function KeyLabels(n: Node, key: string, up: Answers): seq<Step> {
    ([Visit(n, key)] + AskLabels(n, up.first(key))) + PublishLabels(n, up.again(key)) + [Apply(n)]
  }

  /** The local record of the key is published: newer than what both lookups find. */
  predicate Publishes(s: State, ns: NodeState, key: string, up: Answers)
    requires Fits(ns.peers, up, key)
  {
    Passes(ns.tick.locals, key, Lookups(s, ns, up.first(key), key), Lookups(s, ns, up.again(key), key))
  }

  /** The node after the visit. */
  function VisitedNode(s: State, ns: NodeState, key: string, up: Answers): NodeState
    requires Fits(ns.peers, up, key)
  {
    var best := PickNewer(Lookup(ns.tick.locals, key), Lookups(s, ns, up.first(key), key));
    ns.(store := if Publishes(s, ns, key, up) then ns.store[key := ns.tick.locals[key]] else ns.store,
        applied := if best.Some? then ns.applied[key := best.value] else ns.applied,
        tick := ns.tick.(todo := ns.tick.todo - {key}))
  }

  function SentFor(s: State, ns: NodeState, key: string, up: Answers): multiset<Msg>
    requires Fits(ns.peers, up, key)
  {
    if Publishes(s, ns, key, up) then FanOut(ns.peers, ns.tick.locals[key]) else multiset{}
  }

  /** One key of a tick, uninterrupted: the newer of the local record and what the backend's
      lookup finds is applied, the found one on a tie; a local record newer than what both
      lookups find goes to the own store and to every peer. */
  lemma WanVisitRefines(s: State, n: Node, key: string, up: Answers)
    requires n in s.nodes && s.nodes[n].phase.Visiting? && key in s.nodes[n].tick.todo && Fits(s.nodes[n].peers, up, key)
    ensures var ns := s.nodes[n];
            Run(s, KeyLabels(n, key, up)) == State(s.nodes[n := VisitedNode(s, ns, key, up)], s.net + SentFor(s, ns, key, up))
  {
    hide Run, Next, Moved, AskLabels, PublishLabels, DoApply, VisitedNode, SentFor, Settled, Lookups;
    var ns := s.nodes[n];
    var found := Lookups(s, ns, up.first(key), key);
    var get, put := [Visit(n, key)] + AskLabels(n, up.first(key)), PublishLabels(n, up.again(key));
    RunConcat(s, get, put);
    RunConcat(s, get + put, [Apply(n)]);
    LookupPart(s, n, key, up);
    PublishPart(s, n, key, up);
    var u := State(s.nodes[n := Settled(s, ns, key, up)], s.net + SentFor(s, ns, key, up));
    RunOne(u, Apply(n));
    ApplyStep(s, n, Settled(s, ns, key, up), u.net);
    ApplyPart(s, ns, key, up);
  }

  /** The node once it has decided whether to publish, and done so. */
  function Settled(s: State, ns: NodeState, key: string, up: Answers): NodeState
    requires Fits(ns.peers, up, key)
  {
    ns.(store := if Publishes(s, ns, key, up) then ns.store[key := ns.tick.locals[key]] else ns.store,
        phase := Applying(key, Lookups(s, ns, up.first(key), key)))
  }

  lemma LookupPart(s: State, n: Node, key: string, up: Answers)
    requires n in s.nodes && s.nodes[n].phase.Visiting? && key in s.nodes[n].tick.todo && Fits(s.nodes[n].peers, up, key)
    ensures var ns := s.nodes[n];
            Run(s, [Visit(n, key)] + AskLabels(n, up.first(key))) == With(s, n, ns.(phase := Deciding(key, Lookups(s, ns, up.first(key), key))))
  {
    hide Run;
    WanGetRefines(s, n, key, up.first(key));
  }

  lemma PublishPart(s: State, n: Node, key: string, up: Answers)
    requires n in s.nodes && Fits(s.nodes[n].peers, up, key)
    ensures var ns := s.nodes[n];
            Run(With(s, n, ns.(phase := Deciding(key, Lookups(s, ns, up.first(key), key)))), PublishLabels(n, up.again(key)))
            == State(s.nodes[n := Settled(s, ns, key, up)], s.net + SentFor(s, ns, key, up))
  {
    hide Run, PublishLabels, Passes, FanOut, WanStore.Found, PeerStores;
    var ns := s.nodes[n];
    var found := Lookups(s, ns, up.first(key), key);
    var a := ns.(phase := Deciding(key, found));
    var t := With(s, n, a);
    SamePeerStores(s, n, a);
    WanPublishRefines(t, n, key, found, up.again(key));
    assert t.nodes[n := Settled(s, ns, key, up)] == s.nodes[n := Settled(s, ns, key, up)];
    assert s.net + multiset{} == s.net;
  }

  lemma ApplyPart(s: State, ns: NodeState, key: string, up: Answers)
    requires Fits(ns.peers, up, key) && ns.phase.Visiting?
    ensures DoApply(Settled(s, ns, key, up)) == VisitedNode(s, ns, key, up)
  {
    hide Publishes, Lookups, PickNewer;
  }

  /** Replacing a node without changing its store changes no peer's answers. */
  lemma SamePeerStores(s: State, n: Node, a: NodeState)
    requires n in s.nodes && a.store == s.nodes[n].store && a.peers == s.nodes[n].peers
    ensures PeerStores(With(s, n, a), a) == PeerStores(s, s.nodes[n])
  {
  }

  lemma ApplyStep(s: State, n: Node, b: NodeState, net: multiset<Msg>)
    requires n in s.nodes
    ensures Next(State(s.nodes[n := b], net), Apply(n)) == State(s.nodes[n := DoApply(b)], net)
  {
    assert s.nodes[n := b][n := DoApply(b)] == s.nodes[n := DoApply(b)];
  }

  /** The visits of all keys, in the given order. */
  function LoopLabels(n: Node, keys: seq<string>, up: Answers): seq<Step> {
    if keys == [] then [] else LoopLabels(n, keys[..|keys| - 1], up) + KeyLabels(n, keys[|keys| - 1], up)
  }

  predicate AllFit(peers: seq<Node>, up: Answers, keys: seq<string>) {
    forall k :: k in keys ==> Fits(peers, up, k)
  }

  /** The messages of all the visits, each key's as if it were visited first. */
  function SentAll(s: State, ns: NodeState, keys: seq<string>, up: Answers): multiset<Msg>
    requires AllFit(ns.peers, up, keys)
  {
    if keys == [] then multiset{}
    else SentAll(s, ns, keys[..|keys| - 1], up) + SentFor(s, ns, keys[|keys| - 1], up)
  }

  /** What the visits of `keys` make of the state: each key ends as if it were visited alone. */
  ghost predicate Looped(s: State, t: State, n: Node, keys: seq<string>, up: Answers)
    requires n in s.nodes && AllFit(s.nodes[n].peers, up, keys)
  {
    && n in t.nodes && t.nodes == s.nodes[n := t.nodes[n]] && t.net == s.net + SentAll(s, s.nodes[n], keys, up)
    && var a, b := s.nodes[n], t.nodes[n];
    && b.local == a.local && b.peers == a.peers && b.synced == a.synced && b.phase.Visiting?
    && b.tick == a.tick.(todo := a.tick.todo - Engine.Elements(keys))
    && forall k :: SameAt(b, if k in keys then VisitedNode(s, a, k, up) else a, k)
  }

  /** The two agree on what is stored and applied under k. */
  predicate SameAt(a: NodeState, b: NodeState, k: string) {
    Lookup(a.store, k) == Lookup(b.store, k) && Lookup(a.applied, k) == Lookup(b.applied, k)
  }

  /** A lookup of a key sees only what the stores hold under it. */
  lemma {:induction false} FoundSame(own: map<string, Record>, own': map<string, Record>, peers: seq<map<string, Record>>, peers': seq<map<string, Record>>, up: seq<bool>, key: string)
    requires |peers| == |peers'| == |up| && Lookup(own, key) == Lookup(own', key)
    requires forall i :: 0 <= i < |peers| ==> Lookup(peers[i], key) == Lookup(peers'[i], key)
    ensures WanStore.Found(own, peers, up, key) == WanStore.Found(own', peers', up, key)
    decreases |peers|
  {
    if key !in own && peers != [] {
      assert Lookup(peers[0], key) == Lookup(peers'[0], key);
      FoundSame(own, own', peers[1..], peers'[1..], up[1..], key);
    }
  }

  /** A key that has not been visited yet is looked up as at the start. */
  lemma LookupsSame(s: State, t: State, n: Node, key: string, up: seq<bool>)
    requires n in s.nodes && n in t.nodes && t.nodes == s.nodes[n := t.nodes[n]] && t.nodes[n].peers == s.nodes[n].peers
    requires Lookup(t.nodes[n].store, key) == Lookup(s.nodes[n].store, key) && |up| == |s.nodes[n].peers|
    ensures Lookups(t, t.nodes[n], up, key) == Lookups(s, s.nodes[n], up, key)
  {
    var a, b := s.nodes[n], t.nodes[n];
    var p, q := PeerStores(s, a), PeerStores(t, b);
    forall i | 0 <= i < |p| ensures Lookup(p[i], key) == Lookup(q[i], key) {
      assert a.peers[i] in t.nodes <==> a.peers[i] in s.nodes;
    }
    FoundSame(b.store, a.store, q, p, up, key);
  }

  lemma VisitSame(s: State, t: State, n: Node, key: string, up: Answers)
    requires n in s.nodes && n in t.nodes && t.nodes == s.nodes[n := t.nodes[n]] && t.nodes[n].peers == s.nodes[n].peers
    requires SameAt(t.nodes[n], s.nodes[n], key) && t.nodes[n].tick.locals == s.nodes[n].tick.locals && Fits(s.nodes[n].peers, up, key)
    ensures SameAt(VisitedNode(t, t.nodes[n], key, up), VisitedNode(s, s.nodes[n], key, up), key)
    ensures SentFor(t, t.nodes[n], key, up) == SentFor(s, s.nodes[n], key, up)
  {
    hide Lookups, FanOut;
    LookupsSame(s, t, n, key, up.first(key));
    LookupsSame(s, t, n, key, up.again(key));
  }

  lemma VisitElsewhere(s: State, ns: NodeState, key: string, up: Answers, k: string)
    requires Fits(ns.peers, up, key) && k != key
    ensures SameAt(VisitedNode(s, ns, key, up), ns, k)
  {
    hide Lookups;
  }

  predicate Ready(s: State, n: Node, keys: seq<string>, up: Answers) {
    && n in s.nodes && s.nodes[n].phase.Visiting? && NoDups(keys) && AllFit(s.nodes[n].peers, up, keys)
    && forall k :: k in keys ==> k in s.nodes[n].tick.todo
  }

  lemma {:induction false} LoopRefines(s: State, n: Node, keys: seq<string>, up: Answers)
    requires Ready(s, n, keys, up)
    ensures Looped(s, Run(s, LoopLabels(n, keys, up)), n, keys, up)
  {
    if keys == [] {
      assert s.nodes[n := s.nodes[n]] == s.nodes;
    } else {
      hide Run, Looped, KeyLabels;
      var front, key := keys[..|keys| - 1], keys[|keys| - 1];
      assert Ready(s, n, front, up);
      LoopRefines(s, n, front, up);
      RunConcat(s, LoopLabels(n, front, up), KeyLabels(n, key, up));
      OneMore(s, Run(s, LoopLabels(n, front, up)), n, keys, up);
    }
  }

  lemma LastKey(keys: seq<string>)
    requires keys != [] && NoDups(keys)
    ensures var front, key := keys[..|keys| - 1], keys[|keys| - 1];
            && key !in front && NoDups(front) && (forall k :: k in keys <==> k in front || k == key)
            && Engine.Elements(keys) == Engine.Elements(front) + {key}
  {
    var front, key := keys[..|keys| - 1], keys[|keys| - 1];
    assert keys == front + [key];
  }

  /** One more key. */
  lemma OneMore(s: State, mid: State, n: Node, keys: seq<string>, up: Answers)
    requires Ready(s, n, keys, up) && keys != [] && AllFit(s.nodes[n].peers, up, keys[..|keys| - 1])
    requires Looped(s, mid, n, keys[..|keys| - 1], up)
    ensures Looped(s, Run(mid, KeyLabels(n, keys[|keys| - 1], up)), n, keys, up)
  {
    hide Run, KeyLabels, VisitedNode, SentFor, SameAt, Fits;
    var front, key := keys[..|keys| - 1], keys[|keys| - 1];
    var a, ns := s.nodes[n], mid.nodes[n];
    LastKey(keys);
    assert SameAt(ns, a, key);
    WanVisitRefines(mid, n, key, up);
    VisitSame(s, mid, n, key, up);
    var after := VisitedNode(mid, ns, key, up);
    VisitedFrame(mid, ns, key, up);
    assert mid.nodes[n := after] == s.nodes[n := after];
    forall k ensures SameAt(after, if k in keys then VisitedNode(s, a, k, up) else a, k) {
      if k != key {
        VisitElsewhere(mid, ns, key, up, k);
        SameAtChains(after, ns, if k in front then VisitedNode(s, a, k, up) else a, k);
      }
    }
  }

  lemma VisitedFrame(s: State, ns: NodeState, key: string, up: Answers)
    requires Fits(ns.peers, up, key)
    ensures var b := VisitedNode(s, ns, key, up);
            && b.local == ns.local && b.peers == ns.peers && b.synced == ns.synced && b.phase == ns.phase
            && b.tick == ns.tick.(todo := ns.tick.todo - {key})
  {
  }

  lemma SameAtChains(a: NodeState, b: NodeState, c: NodeState, k: string)
    requires SameAt(a, b, k) && SameAt(b, c, k)
    ensures SameAt(a, c, k)
  {
  }

  function TickLabels(n: Node, listed: set<string>, keys: seq<string>, up: Answers): seq<Step> {
    [BeginTick(n, listed)] + LoopLabels(n, keys, up) + [EndTick(n)]
  }

  /** A whole tick, uninterrupted, over its keys in any order and with any peers answering:
      the node reads its files, visits each local or listed key once and is idle again, up to
      date with its files. Under every key it visits it applies the newer of its local record
      and what the backend's lookup found at the start, and stores and sends the local record
      exactly if that is newer than what both lookups find. Nothing else changes. */
  lemma WanTickRefines(s: State, n: Node, listed: set<string>, keys: seq<string>, up: Answers)
    requires n in s.nodes && s.nodes[n].phase.Idle? && NoDups(keys) && AllFit(s.nodes[n].peers, up, keys)
    requires forall k :: k in keys <==> k in s.nodes[n].local || k in listed
    ensures var t, a := Run(s, TickLabels(n, listed, keys, up)), s.nodes[n];
            var begun := a.(tick := Tick(a.local, a.local.Keys + listed, true), phase := Visiting);
            && n in t.nodes && t.nodes == s.nodes[n := t.nodes[n]] && t.net == s.net + SentAll(s, begun, keys, up)
            && t.nodes[n].phase.Idle? && t.nodes[n].synced && t.nodes[n].local == a.local
            && forall k :: SameAt(t.nodes[n], if k in keys then VisitedNode(s, begun, k, up) else a, k)
  {
    hide Run, LoopLabels, VisitedNode, SentFor, SameAt, Fits, SentAll;
    var a := s.nodes[n];
    var begun := a.(tick := Tick(a.local, a.local.Keys + listed, true), phase := Visiting);
    var s1 := With(s, n, begun);
    assert With(s, n, a) == s;
    StepWith(s, n, a, BeginTick(n, listed), begun);
    RunOne(s, BeginTick(n, listed));
    RunConcat(s, [BeginTick(n, listed)], LoopLabels(n, keys, up));
    RunConcat(s, [BeginTick(n, listed)] + LoopLabels(n, keys, up), [EndTick(n)]);
    assert s1.nodes[n] == begun;
    LoopRefines(s1, n, keys, up);
    var s2 := Run(s1, LoopLabels(n, keys, up));
    RunOne(s2, EndTick(n));
    TickEnds(s1, s2, n, keys, up);
    SameStart(s, n, begun, keys, up);
    var t := Next(s2, EndTick(n));
    assert t.nodes == s.nodes[n := t.nodes[n]];
    forall k ensures SameAt(t.nodes[n], if k in keys then VisitedNode(s, begun, k, up) else a, k) {
      assert SameAt(s2.nodes[n], if k in keys then VisitedNode(s1, begun, k, up) else begun, k);
      AtEnd(s2.nodes[n], t.nodes[n], begun, a, if k in keys then VisitedNode(s, begun, k, up) else begun, k);
    }
  }

  lemma AtEnd(b: NodeState, t: NodeState, begun: NodeState, a: NodeState, want: NodeState, k: string)
    requires SameAt(b, want, k) && t.store == b.store && t.applied == b.applied && begun.store == a.store && begun.applied == a.applied
    ensures SameAt(t, want, k) && (want == begun ==> SameAt(t, a, k))
  {
  }

  lemma TickEnds(s: State, t: State, n: Node, keys: seq<string>, up: Answers)
    requires n in s.nodes && AllFit(s.nodes[n].peers, up, keys) && Looped(s, t, n, keys, up)
    requires s.nodes[n].tick.current && forall k :: k in s.nodes[n].tick.todo ==> k in keys
    ensures var u := Next(t, EndTick(n));
            u == State(t.nodes[n := t.nodes[n].(phase := Idle, synced := true)], t.net)
  {
    assert t.nodes[n].tick.todo == {};
  }

  /** Beginning a tick changes no store, so every lookup finds the same. */
  lemma {:induction false} SameStart(s: State, n: Node, begun: NodeState, keys: seq<string>, up: Answers)
    requires n in s.nodes && begun.store == s.nodes[n].store && begun.peers == s.nodes[n].peers && AllFit(begun.peers, up, keys)
    ensures forall k :: k in keys ==> VisitedNode(With(s, n, begun), begun, k, up) == VisitedNode(s, begun, k, up)
    ensures SentAll(With(s, n, begun), begun, keys, up) == SentAll(s, begun, keys, up)
  {
    assert PeerStores(With(s, n, begun), begun) == PeerStores(s, begun);
    if keys != [] {
      hide PeerStores, FanOut;
      SameStart(s, n, begun, keys[..|keys| - 1], up);
    }
  }
}
