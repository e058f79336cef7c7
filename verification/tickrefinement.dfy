/** A whole tick over the shared store: the state machine's steps of one node, run without
    interference, publish and apply what the engine's loop does. */
module TickRefinement {
  import opened Versions
  import opened Refinement
  import AtomicFile
  import Providers
  import Engine
  import Lan

  /** What fails in a tick: reads and puts as in the engine, and besides the lock attempts
      for keys not in `locked` and the applies for keys in `applyFails`. */
  datatype Outcome = Outcome(env: Engine.Env, locked: set<string>, applyFails: set<string>)

  function KeyLabels(n: Lan.Node, key: string, o: Outcome): seq<Lan.Step> {
    VisitLabels(n, key, key !in o.env.getFails, key in o.locked, key !in o.env.regetFails, key !in o.env.putFails, key !in o.applyFails)
  }

  /** The visits of all keys, in the given order. */
  function LoopLabels(n: Lan.Node, keys: seq<string>, o: Outcome): seq<Lan.Step> {
    if keys == [] then [] else LoopLabels(n, keys[..|keys| - 1], o) + KeyLabels(n, keys[|keys| - 1], o)
  }

  lemma {:induction false} LanConcat(s: Lan.State, xs: seq<Lan.Step>, ys: seq<Lan.Step>)
    ensures Lan.Run(s, xs + ys) == Lan.Run(Lan.Run(s, xs), ys)
  {
    if ys == [] {
      assert xs + ys == xs;
    } else {
      hide Lan.Next;
      var front := ys[..|ys| - 1];
      assert (xs + ys)[..|xs + ys| - 1] == xs + front;
      LanConcat(s, xs, front);
    }
  }

  /** The engine's publish step sees of the failures only those of its key. */
  lemma SameFailures(records: map<string, Record>, locals: map<string, Record>, key: string, env: Engine.Env)
    ensures var one := EnvOf(key, key !in env.getFails, key !in env.regetFails, key !in env.putFails);
            && Engine.Best(locals, records, one, key) == Engine.Best(locals, records, env, key)
            && Engine.Publish(records, key, Lookup(locals, key), Engine.Seen(records, one, key), one)
               == Engine.Publish(records, key, Lookup(locals, key), Engine.Seen(records, env, key), env)
  {
  }

  lemma PublishElsewhere(records: map<string, Record>, locals: map<string, Record>, key: string, seen: Option<Record>, env: Engine.Env, k: string)
    requires Keyed(locals) && k != key
    ensures Lookup(Engine.Publish(records, key, Lookup(locals, key), seen, env), k) == Lookup(records, k)
  {
  }

  /** What the visits of `keys` make of the state: the records of the engine's loop, each
      key's winner applied unless that fails, the keys done, the locks as they were. */
  ghost predicate Looped(s: Lan.State, t: Lan.State, n: Lan.Node, keys: seq<string>, o: Outcome, records: map<string, Record>)
    requires n in s.nodes
  {
    && n in t.nodes && t.cluster == records && t.locks == s.locks
    && t.nodes == s.nodes[n := t.nodes[n]]
    && var a, b := s.nodes[n], t.nodes[n];
    && b.local == a.local && b.phase.Visiting? && b.tick.locals == a.tick.locals && b.tick.todo == a.tick.todo - Engine.Elements(keys)
    && (forall k :: k !in keys ==> Lookup(records, k) == Lookup(s.cluster, k) && Lookup(b.applied, k) == Lookup(a.applied, k))
    && (forall k :: k in keys ==> Lookup(b.applied, k) == AppliedTo(a, s.cluster, o, k))
  }

  /** What a visit leaves as applied under its key. */
  function AppliedTo(a: Lan.NodeState, records: map<string, Record>, o: Outcome, key: string): Option<Record> {
    var best := Engine.Best(a.tick.locals, records, o.env, key);
    if key !in o.applyFails && best.Some? then best else Lookup(a.applied, key)
  }

  predicate Ready(s: Lan.State, n: Lan.Node, keys: seq<string>, o: Outcome) {
    && n in s.nodes && s.nodes[n].phase.Visiting? && Keyed(s.nodes[n].tick.locals)
    && NoDups(keys) && (forall k :: k in keys ==> k in s.nodes[n].tick.todo) && o.locked !! s.locks.Keys
  }

  lemma {:induction false} LoopRefines(s: Lan.State, n: Lan.Node, keys: seq<string>, o: Outcome, cfg: Providers.Config, files: AtomicFile.Files)
    requires Ready(s, n, keys, o)
    ensures Looped(s, Lan.Run(s, LoopLabels(n, keys, o)), n, keys, o,
                   Engine.VisitAll(cfg, s.nodes[n].tick.locals, o.env, Engine.TickState(s.cluster, files, []), keys).records)
  {
    if keys == [] {
      assert s.nodes[n := s.nodes[n]] == s.nodes;
    } else {
      hide Lan.Run, Looped, KeyLabels, Engine.VisitKey;
      var front, key := keys[..|keys| - 1], keys[|keys| - 1];
      assert Ready(s, n, front, o);
      LoopRefines(s, n, front, o, cfg, files);
      var mid := Lan.Run(s, LoopLabels(n, front, o));
      LanConcat(s, LoopLabels(n, front, o), KeyLabels(n, key, o));
      var ts := Engine.VisitAll(cfg, s.nodes[n].tick.locals, o.env, Engine.TickState(s.cluster, files, []), front);
      OneMore(s, mid, n, keys, o, ts.records);
      VisitRecords(cfg, s.nodes[n].tick.locals, o.env, ts, key);
    }
  }

  lemma VisitRecords(cfg: Providers.Config, locals: map<string, Record>, env: Engine.Env, ts: Engine.TickState, key: string)
    ensures Engine.VisitKey(cfg, locals, env, ts, key).records
            == Engine.Publish(ts.records, key, Lookup(locals, key), Engine.Seen(ts.records, env, key), env)
  {
  }

  /** The node after one more visit, of a key for which `records` are the store. */
  function VisitedNode(ns: Lan.NodeState, records: map<string, Record>, o: Outcome, key: string): Lan.NodeState {
    var best := Engine.Best(ns.tick.locals, records, o.env, key);
    ns.(applied := if key !in o.applyFails && best.Some? then ns.applied[key := best.value] else ns.applied,
        tick := ns.tick.(todo := ns.tick.todo - {key}))
  }

  function Stored(records: map<string, Record>, locals: map<string, Record>, o: Outcome, key: string): map<string, Record> {
    Engine.Publish(records, key, Lookup(locals, key), Engine.Seen(records, o.env, key), o.env)
  }

  lemma KeyRefines(s: Lan.State, n: Lan.Node, key: string, o: Outcome)
    requires n in s.nodes && s.nodes[n].phase.Visiting? && Keyed(s.nodes[n].tick.locals) && key in s.nodes[n].tick.todo
    requires key in o.locked ==> key !in s.locks
    ensures var ns := s.nodes[n];
            Lan.Run(s, KeyLabels(n, key, o)) == At(s, n, VisitedNode(ns, s.cluster, o, key), Stored(s.cluster, ns.tick.locals, o, key), s.locks)
  {
    hide Lan.Run, Engine.Publish, Engine.Best, VisitLabels;
    var env := o.env;
    LanVisitRefines(s, n, key, key !in env.getFails, key in o.locked, key !in env.regetFails, key !in env.putFails, key !in o.applyFails);
    SameFailures(s.cluster, s.nodes[n].tick.locals, key, env);
  }

  lemma ElementsSnoc(keys: seq<string>)
    requires keys != []
    ensures Engine.Elements(keys) == Engine.Elements(keys[..|keys| - 1]) + {keys[|keys| - 1]}
  {
    assert keys == keys[..|keys| - 1] + [keys[|keys| - 1]];
  }

  /** One more key. */
  lemma OneMore(s: Lan.State, mid: Lan.State, n: Lan.Node, keys: seq<string>, o: Outcome, records: map<string, Record>)
    requires Ready(s, n, keys, o) && keys != [] && Looped(s, mid, n, keys[..|keys| - 1], o, records)
    ensures var key := keys[|keys| - 1];
            Looped(s, Lan.Run(mid, KeyLabels(n, key, o)), n, keys, o, Stored(records, s.nodes[n].tick.locals, o, key))
  {
    hide Lan.Run, KeyLabels, Engine.Best, Stored, AppliedTo, VisitedNode;
    var front, key := keys[..|keys| - 1], keys[|keys| - 1];
    assert key !in front;
    KeyRefines(mid, n, key, o);
    var after := VisitedNode(mid.nodes[n], records, o, key);
    var t := At(mid, n, after, Stored(records, s.nodes[n].tick.locals, o, key), s.locks);
    assert mid.nodes[n := after] == s.nodes[n := after];
    ElementsSnoc(keys);
    VisitedAt(s, mid, n, o, records, key);
    forall k | k != key ensures Lookup(t.cluster, k) == Lookup(records, k) && Lookup(after.applied, k) == Lookup(mid.nodes[n].applied, k) {
      VisitedElsewhere(s, mid, n, o, records, key, k);
    }
    forall k ensures k in keys <==> k in front || k == key {
      assert keys == front + [key];
    }
  }

  lemma VisitedAt(s: Lan.State, mid: Lan.State, n: Lan.Node, o: Outcome, records: map<string, Record>, key: string)
    requires n in s.nodes && n in mid.nodes && Lookup(records, key) == Lookup(s.cluster, key)
    requires mid.nodes[n].tick.locals == s.nodes[n].tick.locals && Lookup(mid.nodes[n].applied, key) == Lookup(s.nodes[n].applied, key)
    ensures var ns := mid.nodes[n]; var after := VisitedNode(ns, records, o, key);
            && Lookup(after.applied, key) == AppliedTo(s.nodes[n], s.cluster, o, key)
            && after.local == ns.local && after.phase == ns.phase && after.tick.locals == ns.tick.locals && after.tick.todo == ns.tick.todo - {key}
  {
    BestLocal(s.nodes[n].tick.locals, records, s.cluster, o.env, key);
  }

  lemma VisitedElsewhere(s: Lan.State, mid: Lan.State, n: Lan.Node, o: Outcome, records: map<string, Record>, key: string, k: string)
    requires n in s.nodes && n in mid.nodes && Keyed(s.nodes[n].tick.locals) && k != key
    ensures Lookup(Stored(records, s.nodes[n].tick.locals, o, key), k) == Lookup(records, k)
    ensures Lookup(VisitedNode(mid.nodes[n], records, o, key).applied, k) == Lookup(mid.nodes[n].applied, k)
  {
    PublishElsewhere(records, s.nodes[n].tick.locals, key, Engine.Seen(records, o.env, key), o.env, k);
  }

  /** The winner of a key depends only on that key's record. */
  lemma BestLocal(locals: map<string, Record>, a: map<string, Record>, b: map<string, Record>, env: Engine.Env, key: string)
    requires Lookup(a, key) == Lookup(b, key)
    ensures Engine.Best(locals, a, env, key) == Engine.Best(locals, b, env, key)
  {
  }

  function TickLabels(n: Lan.Node, listed: set<string>, keys: seq<string>, o: Outcome): seq<Lan.Step> {
    [Lan.BeginTick(n, listed)] + LoopLabels(n, keys, o) + [Lan.EndTick(n)]
  }

  /** A whole tick, uninterrupted, over its keys in any order and whatever fails in it: the
      cluster ends with the records of the engine's loop, each key's winner is applied unless
      that fails, the node is idle again, and nothing else changes. */
  lemma LanTickRefines(s: Lan.State, n: Lan.Node, listed: set<string>, keys: seq<string>, o: Outcome, cfg: Providers.Config, files: AtomicFile.Files)
    requires n in s.nodes && s.nodes[n].phase.Idle? && Keyed(s.nodes[n].local) && o.locked !! s.locks.Keys
    requires NoDups(keys) && forall k :: k in keys <==> k in s.nodes[n].local || k in listed
    ensures var t, a := Lan.Run(s, TickLabels(n, listed, keys, o)), s.nodes[n];
            && t.cluster == Engine.VisitAll(cfg, a.local, o.env, Engine.TickState(s.cluster, files, []), keys).records
            && t.locks == s.locks && n in t.nodes && t.nodes == s.nodes[n := t.nodes[n]]
            && t.nodes[n].phase.Idle? && t.nodes[n].local == a.local
            && forall k :: Lookup(t.nodes[n].applied, k) ==
                 (var best := Engine.Best(a.local, s.cluster, o.env, k);
                  if k in keys && k !in o.applyFails && best.Some? then best else Lookup(a.applied, k))
  {
    hide Lan.Run, LoopLabels, Engine.VisitAll, Engine.Best;
    var a := s.nodes[n];
    var begun := a.(tick := Lan.Tick(a.local, a.local.Keys + listed), phase := Lan.Visiting);
    var s1 := At(s, n, begun, s.cluster, s.locks);
    assert At(s, n, a, s.cluster, s.locks) == s;
    LanStep(s, n, a, s.cluster, s.locks, Lan.BeginTick(n, listed), begun);
    LanOne(s, Lan.BeginTick(n, listed));
    LanConcat(s, [Lan.BeginTick(n, listed)], LoopLabels(n, keys, o));
    LanConcat(s, [Lan.BeginTick(n, listed)] + LoopLabels(n, keys, o), [Lan.EndTick(n)]);
    LoopRefines(s1, n, keys, o, cfg, files);
    var s2 := Lan.Run(s1, LoopLabels(n, keys, o));
    LanOne(s2, Lan.EndTick(n));
    TickEnds(s1, s2, n, keys, o, s2.cluster);
    assert s1.nodes[n] == begun;
  }

  lemma LanOne(s: Lan.State, step: Lan.Step)
    ensures Lan.Run(s, [step]) == Lan.Next(s, step)
  {
    assert [step][..0] == [];
    assert Lan.Run(s, []) == s;
  }

  lemma TickEnds(s: Lan.State, t: Lan.State, n: Lan.Node, keys: seq<string>, o: Outcome, records: map<string, Record>)
    requires n in s.nodes && Looped(s, t, n, keys, o, records) && forall k :: k in s.nodes[n].tick.todo ==> k in keys
    ensures var u := Lan.Next(t, Lan.EndTick(n));
            u == t.(nodes := t.nodes[n := t.nodes[n].(phase := Lan.Idle)])
  {
    assert t.nodes[n].tick.todo == {};
  }
}
