/** The WAN backend as a message-passing protocol, for one resource kind.

    Every node keeps its own store and runs reconcile ticks; a published record is
    fanned out to the node's peers as messages. A step of the system is labelled by
    everything the environment chooses: which node moves, which peers answer, which
    message arrives, is duplicated or is lost. A label that is not enabled changes
    nothing, so a run is any sequence of labels. */
module Wan {
  import opened Versions

  type Node = nat

  /** One reconcile pass over a provider: the local records it read, the keys still
      to visit, and whether the node's files are unchanged since they were read. */
  datatype Tick = Tick(locals: map<string, Record>, todo: set<string>, current: bool)

  /** Where a node is in its tick. `seen` is the cluster copy from the first Get. The
      first Get is Visiting to Deciding and the re-check Contending to Committing;
      each looks in the own store, then asks peers[asked], peers[asked+1], ...
      `raced` records that a delivery for `key` reached the node since the re-check
      looked in the own store. */
  datatype Phase =
    | Idle
    | Visiting
    | Reading(key: string, asked: nat)
    | Deciding(key: string, seen: Option<Record>)
    | Contending(key: string, seen: Option<Record>)
    | Rereading(key: string, seen: Option<Record>, asked: nat, raced: bool)
    | Committing(key: string, seen: Option<Record>, raced: bool)
    | Applying(key: string, seen: Option<Record>)

  /** `synced`: a tick that read the files after their last change has finished. */
  datatype NodeState = NodeState(
    peers: seq<Node>,
    local: map<string, Record>,
    store: map<string, Record>,
    tick: Tick,
    phase: Phase,
    applied: map<string, Record>,
    synced: bool)

  datatype Msg = Msg(to: Node, rec: Record)

  datatype State = State(nodes: map<Node, NodeState>, net: multiset<Msg>)

  datatype Step =
    | Edit(n: Node, local: map<string, Record>)
    | BeginTick(n: Node, listed: set<string>)
    | Visit(n: Node, key: string)
    | Ask(n: Node, up: bool)
    | Check(n: Node)
    | Recheck(n: Node)
    | Put(n: Node)
    | Apply(n: Node)
    | EndTick(n: Node)
    | Deliver(m: Msg)
    | Duplicate(m: Msg)
    | Lose(m: Msg)

  function MarkRaced(p: Phase, key: string): Phase {
    match p
    case Rereading(k, seen, asked, raced) => Rereading(k, seen, asked, raced || k == key)
    case Committing(k, seen, raced) => Committing(k, seen, raced || k == key)
    case _ => p
  }

  /** The version-guarded write of an incoming record. */
  function Guarded(store: map<string, Record>, r: Record): map<string, Record> {
    if r.key in store && AtMost(r.version, store[r.key].version) then store else store[r.key := r]
  }

  function FanOut(peers: seq<Node>, r: Record): (ms: multiset<Msg>)
    ensures forall m :: m in ms <==> m.rec == r && m.to in peers
  {
    if peers == [] then multiset{} else multiset{Msg(peers[0], r)} + FanOut(peers[1..], r)
  }

  function DoEdit(ns: NodeState, local: map<string, Record>): NodeState {
    if Keyed(local) then ns.(local := local, synced := false, tick := ns.tick.(current := false)) else ns
  }

  function DoBegin(ns: NodeState, listed: set<string>): NodeState {
    if ns.phase.Idle?
    then ns.(tick := Tick(ns.local, ns.local.Keys + listed, true), phase := Visiting)
    else ns
  }

  /** First Get: the own store, and on a miss the peers. */
  function DoVisit(ns: NodeState, key: string): NodeState {
    if ns.phase.Visiting? && key in ns.tick.todo then
      ns.(phase := if key in ns.store then Deciding(key, Some(ns.store[key])) else Reading(key, 0))
    else ns
  }

  /** The answer of the next peer in order, if it is up and has the key. */
  function PeerAnswer(s: State, ns: NodeState, asked: nat, key: string, up: bool): Option<Record> {
    if asked < |ns.peers| && up && ns.peers[asked] in s.nodes
    then Lookup(s.nodes[ns.peers[asked]].store, key)
    else None
  }

  function DoAsk(s: State, ns: NodeState, up: bool): NodeState {
    match ns.phase
    case Reading(key, asked) =>
      var answer := PeerAnswer(s, ns, asked, key, up);
      ns.(phase := if answer.Some? || asked >= |ns.peers| then Deciding(key, answer) else Reading(key, asked + 1))
    case Rereading(key, seen, asked, raced) =>
      var answer := PeerAnswer(s, ns, asked, key, up);
      ns.(phase :=
          if answer.Some? then
            if key in ns.tick.locals && AtMost(ns.tick.locals[key].version, answer.value.version)
            then Applying(key, seen) else Committing(key, seen, raced)
          else if asked >= |ns.peers| then Committing(key, seen, raced)
          else Rereading(key, seen, asked + 1, raced))
    case _ => ns
  }

  /** maybePublish up to the lock: publish only a local record newer than the copy seen. */
  function DoCheck(ns: NodeState): NodeState {
    match ns.phase
    case Deciding(key, seen) =>
      ns.(phase :=
          if key !in ns.tick.locals || (seen.Some? && AtMost(ns.tick.locals[key].version, seen.value.version))
          then Applying(key, seen) else Contending(key, seen))
    case _ => ns
  }

  /** Lock is a no-op; the re-check starts in the own store. */
  function DoRecheck(ns: NodeState): NodeState {
    match ns.phase
    case Contending(key, seen) =>
      ns.(phase :=
          if key !in ns.store then Rereading(key, seen, 0, false)
          else if key in ns.tick.locals && AtMost(ns.tick.locals[key].version, ns.store[key].version)
          then Applying(key, seen) else Committing(key, seen, false))
    case _ => ns
  }

  predicate CanPut(ns: NodeState) {
    ns.phase.Committing? && ns.phase.key in ns.tick.locals
  }

  /** The record a Put publishes. */
  function Published(ns: NodeState): Record
    requires CanPut(ns)
  {
    ns.tick.locals[ns.phase.key]
  }

  /** Put writes the own store without a version guard. */
  function DoPut(ns: NodeState): NodeState {
    if CanPut(ns)
    then ns.(store := ns.store[ns.phase.key := Published(ns)], phase := Applying(ns.phase.key, ns.phase.seen))
    else ns
  }

  /** The record applied is chosen from the copy seen by the first Get. */
  function DoApply(ns: NodeState): NodeState {
    match ns.phase
    case Applying(key, seen) =>
      var best := PickNewer(Lookup(ns.tick.locals, key), seen);
      ns.(applied := if best.Some? then ns.applied[key := best.value] else ns.applied,
          tick := ns.tick.(todo := ns.tick.todo - {key}),
          phase := Visiting)
    case _ => ns
  }

  function DoEnd(ns: NodeState): NodeState {
    if ns.phase.Visiting? && ns.tick.todo == {}
    then ns.(phase := Idle, synced := ns.synced || ns.tick.current)
    else ns
  }

  function DoDeliver(ns: NodeState, r: Record): NodeState {
    ns.(store := Guarded(ns.store, r), phase := MarkRaced(ns.phase, r.key))
  }

  /** The node a step moves. */
  function Actor(step: Step): Node {
    if step.Deliver? || step.Duplicate? || step.Lose? then step.m.to else step.n
  }

  predicate Enabled(s: State, step: Step) {
    Actor(step) in s.nodes && (step.Deliver? || step.Duplicate? || step.Lose? ==> step.m in s.net)
  }

  /** What the moving node becomes. */
  function Moved(s: State, step: Step): NodeState
    requires Actor(step) in s.nodes
  {
    var ns := s.nodes[Actor(step)];
    match step
    case Edit(_, local) => DoEdit(ns, local)
    case BeginTick(_, listed) => DoBegin(ns, listed)
    case Visit(_, key) => DoVisit(ns, key)
    case Ask(_, up) => DoAsk(s, ns, up)
    case Check(_) => DoCheck(ns)
    case Recheck(_) => DoRecheck(ns)
    case Put(_) => DoPut(ns)
    case Apply(_) => DoApply(ns)
    case EndTick(_) => DoEnd(ns)
    case Deliver(m) => DoDeliver(ns, m.rec)
    case Duplicate(_) => ns
    case Lose(_) => ns
  }

  /** What the messages in flight become. */
  function NetAfter(s: State, step: Step): multiset<Msg>
    requires Actor(step) in s.nodes
  {
    match step
    case Put(n) => if CanPut(s.nodes[n]) then s.net + FanOut(s.nodes[n].peers, Published(s.nodes[n])) else s.net
    case Deliver(m) => s.net - multiset{m}
    case Duplicate(m) => s.net + multiset{m}
    case Lose(m) => s.net - multiset{m}
    case _ => s.net
  }

  function Next(s: State, step: Step): State {
    if Enabled(s, step)
    then State(s.nodes[Actor(step) := Moved(s, step)], NetAfter(s, step))
    else s
  }

  function Run(s: State, steps: seq<Step>): State {
    if steps == [] then s
    else Next(Run(s, steps[..|steps| - 1]), steps[|steps| - 1])
  }

  /** Fresh processes: empty stores, nothing in flight, peers that are nodes. */
  predicate Init(s: State) {
    && s.net == multiset{}
    && forall n :: n in s.nodes ==>
         && s.nodes[n].store == map[] && s.nodes[n].applied == map[]
         && s.nodes[n].phase.Idle? && s.nodes[n].tick == Tick(map[], {}, false) && !s.nodes[n].synced
         && Keyed(s.nodes[n].local)
         && forall i :: 0 <= i < |s.nodes[n].peers| ==> s.nodes[n].peers[i] in s.nodes
  }
}
